/**
 * The board store of the GraphQL resolvers module: one in-memory snapshot,
 * loaded once, that the eight mutations update in place and then write back
 * whole. Each mutation is specified by a function from the snapshot before
 * to the Outcome (snapshot after, answer); the class methods do the work
 * step by step and are proved to reach exactly that outcome.
 */
module Resolvers {
  import opened Decimal
  import opened Kanban
  import opened KanbanLemmas

  // ---------------------------------------------------------------------
  // What each mutation of this module does to the snapshot

  /**
   * updateColumn(id, title): 404 and no change for an unknown id; otherwise
   * only that column's title changes, and an empty or absent title keeps it.
   */
  function UpdateColumnOutcome(d: Data, id: Id, title: string): (o: Outcome)
    ensures o.response.statusCode == 404 <==> id !in ColumnIds(d.columns)
    ensures id !in ColumnIds(d.columns) ==> o == Outcome(d, NotFound("Column not found"))
    ensures id in ColumnIds(d.columns) ==>
      var i := FindIndex(ColumnIds(d.columns), id);
      && o.response == MutationResponse(200, "Column updated successfully", None, None)
      && o.data.tasks == d.tasks
      && |o.data.columns| == |d.columns|
      && o.data.columns[i].id == id
      && o.data.columns[i].title == (if title == "" then d.columns[i].title else title)
      && forall k :: 0 <= k < |d.columns| && k != i ==> o.data.columns[k] == d.columns[k]
  {
    var i := FindIndex(ColumnIds(d.columns), id);
    if i == -1 then Outcome(d, NotFound("Column not found"))
    else
      var column := d.columns[i].(title := Or(title, d.columns[i].title));
      Outcome(Data(d.columns[i := column], d.tasks),
              MutationResponse(200, "Column updated successfully", None, None))
  }

  /**
   * swapColumns(activeColumnId, overColumnId): 404 when either id is
   * unknown; the column order becomes the one SwapColumns describes.
   */
  function SwapColumnsOutcome(d: Data, activeColumnId: Id, overColumnId: Id): (o: Outcome)
    ensures o.data == Data(SwapColumns(d.columns, activeColumnId, overColumnId), d.tasks)
    ensures o.response.statusCode == 404 <==>
      activeColumnId !in ColumnIds(d.columns) || overColumnId !in ColumnIds(d.columns)
    ensures o.response.statusCode == 404 ==> o == Outcome(d, NotFound("Column not found"))
    ensures o.response.statusCode != 404 ==> o.response == MutationResponse(200, "Column moved successfully", None, None)
  {
    var i := FindIndex(ColumnIds(d.columns), activeColumnId);
    var j := FindIndex(ColumnIds(d.columns), overColumnId);
    if i == -1 || j == -1 then Outcome(d, NotFound("Column not found"))
    else
      Outcome(Data(SwapColumns(d.columns, activeColumnId, overColumnId), d.tasks),
              MutationResponse(200, "Column moved successfully", None, None))
  }

  /**
   * updateTask(id, content): 404 and no change for an unknown id; otherwise
   * only that task's content changes (an empty content keeps it), its id and
   * column stay, and the updated task is returned.
   */
  function UpdateTaskOutcome(d: Data, id: Id, content: string): (o: Outcome)
    ensures o.response.statusCode == 404 <==> id !in TaskIds(d.tasks)
    ensures id !in TaskIds(d.tasks) ==> o == Outcome(d, NotFound("Task not found"))
    ensures id in TaskIds(d.tasks) ==>
      var i := FindIndex(TaskIds(d.tasks), id);
      && o.data.columns == d.columns
      && |o.data.tasks| == |d.tasks|
      && o.data.tasks[i] == Task(id, d.tasks[i].columnId, if content == "" then d.tasks[i].content else content)
      && (forall k :: 0 <= k < |d.tasks| && k != i ==> o.data.tasks[k] == d.tasks[k])
      && o.response == MutationResponse(200, "Task updated successfully", None, Some(o.data.tasks[i]))
  {
    var i := FindIndex(TaskIds(d.tasks), id);
    if i == -1 then Outcome(d, NotFound("Task not found"))
    else
      var task := d.tasks[i].(content := Or(content, d.tasks[i].content));
      Outcome(Data(d.columns, d.tasks[i := task]),
              MutationResponse(200, "Task updated successfully", None, Some(task)))
  }

  /**
   * moveTask(activeTaskId, overTaskId, columnId): 404 when either id is
   * unknown; the task order becomes the one MoveTasks describes.
   */
  function MoveTaskOutcome(d: Data, activeTaskId: Id, overTaskId: Id, columnId: Id): (o: Outcome)
    ensures o.data == Data(d.columns, MoveTasks(d.tasks, activeTaskId, overTaskId, columnId))
    ensures o.response.statusCode == 404 <==>
      activeTaskId !in TaskIds(d.tasks) || overTaskId !in TaskIds(d.tasks)
    ensures o.response.statusCode == 404 ==> o == Outcome(d, NotFound("Task not found"))
    ensures o.response.statusCode != 404 ==> o.response == MutationResponse(200, "Task moved successfully", None, None)
  {
    var i := FindIndex(TaskIds(d.tasks), activeTaskId);
    var j := FindIndex(TaskIds(d.tasks), overTaskId);
    if i == -1 || j == -1 then Outcome(d, NotFound("Task not found"))
    else
      Outcome(Data(d.columns, MoveTasks(d.tasks, activeTaskId, overTaskId, columnId)),
              MutationResponse(200, "Task moved successfully", None, None))
  }

  /**
   * deleteTasks(ids): the tasks DeleteAll leaves; 200 when at least one
   * task was deleted and 404 otherwise, with the message counting them.
   */
  function DeleteTasksOutcome(d: Data, ids: seq<Id>): (o: Outcome)
    ensures o.data.columns == d.columns
    ensures |o.data.tasks| <= |d.tasks|
    ensures var deleted := DeletedTasks(d.tasks, ids);
      && multiset(deleted) + multiset(o.data.tasks) == multiset(d.tasks)
      && (o.response.statusCode == 200 <==> |deleted| > 0)
      && (o.response.statusCode == 404 <==> deleted == [])
      && o.response.message == DeleteTasksMessage(|deleted|, |ids|)
  {
    var deleted, kept := DeletedTasks(d.tasks, ids), DeleteAll(d.tasks, ids);
    assert |multiset(deleted)| + |multiset(kept)| == |multiset(d.tasks)|;
    Outcome(Data(d.columns, kept),
            MutationResponse(if |deleted| > 0 then 200 else 404, DeleteTasksMessage(|deleted|, |ids|), None, None))
  }

  // ---------------------------------------------------------------------
  // Properties of those mutations

  lemma UpdateColumnKeepsWellFormed(d: Data, id: Id, title: string)
    requires WellFormed(d.columns, d.tasks)
    ensures var o := UpdateColumnOutcome(d, id, title); WellFormed(o.data.columns, o.data.tasks)
  {
    var i := FindIndex(ColumnIds(d.columns), id);
    if i != -1 {
      RenameColumnKeepsWellFormed(d.columns, d.tasks, i, Or(title, d.columns[i].title));
    }
  }

  lemma SwapColumnsKeepsWellFormed(d: Data, activeColumnId: Id, overColumnId: Id)
    requires WellFormed(d.columns, d.tasks)
    ensures var o := SwapColumnsOutcome(d, activeColumnId, overColumnId); WellFormed(o.data.columns, o.data.tasks)
  {
    var ids := ColumnIds(d.columns);
    var i, j := FindIndex(ids, activeColumnId), FindIndex(ids, overColumnId);
    if i != -1 && j != -1 {
      ColumnIdsSwap(d.columns, i, j);
      DistinctSwap(ids, i, j);
      SwapMembers(ids, i, j);
    }
  }

  /** swapColumns(a, b) twice restores the column order (whatever the ids). */
  lemma SwapColumnsTwice(d: Data, activeColumnId: Id, overColumnId: Id)
    requires WellFormed(d.columns, d.tasks)
    ensures var once := SwapColumnsOutcome(d, activeColumnId, overColumnId).data;
      SwapColumnsOutcome(once, activeColumnId, overColumnId).data == d
  {
    SwapColumnsInvolution(d.columns, activeColumnId, overColumnId);
  }

  lemma UpdateTaskKeepsWellFormed(d: Data, id: Id, content: string)
    requires WellFormed(d.columns, d.tasks)
    ensures var o := UpdateTaskOutcome(d, id, content); WellFormed(o.data.columns, o.data.tasks)
  {
    var i := FindIndex(TaskIds(d.tasks), id);
    if i != -1 {
      assert d.tasks[i] in d.tasks;
      ReplaceTaskKeepsWellFormed(d.columns, d.tasks, i, d.tasks[i].(content := Or(content, d.tasks[i].content)));
    }
  }

  /** moveTask keeps the board well-formed when its columnId is empty or names a column. */
  lemma MoveTaskKeepsWellFormed(d: Data, activeTaskId: Id, overTaskId: Id, columnId: Id)
    requires WellFormed(d.columns, d.tasks)
    requires columnId == "" || columnId in ColumnIds(d.columns)
    ensures var o := MoveTaskOutcome(d, activeTaskId, overTaskId, columnId); WellFormed(o.data.columns, o.data.tasks)
  {
    var ids := TaskIds(d.tasks);
    var i, j := FindIndex(ids, activeTaskId), FindIndex(ids, overTaskId);
    if i != -1 && j != -1 {
      var relabelled := Relabel(d.tasks, i, columnId);
      assert d.tasks[i] in d.tasks;
      ReplaceTaskKeepsWellFormed(d.columns, d.tasks, i, relabelled[i]);
      assert relabelled == d.tasks[i := relabelled[i]];
      TaskIdsSwap(relabelled, i, j);
      DistinctSwap(TaskIds(relabelled), i, j);
      SwapMembers(relabelled, i, j);
    }
  }

  /** moveTask does not look its columnId up: a name of no column orphans the task. */
  lemma MoveTaskCanOrphan()
    ensures var d := Data([Column("c1", "To Do")], [Task("t1", "c1", "write spec")]);
      var o := MoveTaskOutcome(d, "t1", "t1", "c2");
      && WellFormed(d.columns, d.tasks)
      && o.response.statusCode == 200
      && !WellFormed(o.data.columns, o.data.tasks)
  {
    var d := Data([Column("c1", "To Do")], [Task("t1", "c1", "write spec")]);
    assert ColumnIds(d.columns) == ["c1"];
    assert TaskIds(d.tasks) == ["t1"];
    var moved := MoveTasks(d.tasks, "t1", "t1", "c2");
    assert moved[0] == Task("t1", "c2", "write spec");
    assert moved[0] in moved;
  }

  /** moveTask(a, b, "") twice restores the task order (whatever the ids). */
  lemma MoveTaskTwice(d: Data, activeTaskId: Id, overTaskId: Id)
    requires WellFormed(d.columns, d.tasks)
    ensures var once := MoveTaskOutcome(d, activeTaskId, overTaskId, "").data;
      MoveTaskOutcome(once, activeTaskId, overTaskId, "").data == d
  {
    MoveTasksInvolution(d.tasks, activeTaskId, overTaskId);
  }

  /**
   * On a well-formed board deleteTasks(ids) keeps it well-formed, keeps
   * exactly the unlisted tasks in their order, and reports as deleted
   * exactly the listed ones.
   */
  lemma DeleteTasksKeepsWellFormed(d: Data, ids: seq<Id>)
    requires WellFormed(d.columns, d.tasks)
    ensures var o := DeleteTasksOutcome(d, ids);
      && WellFormed(o.data.columns, o.data.tasks)
      && o.data.tasks == Filter(d.tasks, Unlisted(set x | x in ids))
      && multiset(DeletedTasks(d.tasks, ids)) == multiset(Filter(d.tasks, Listed(set x | x in ids)))
  {
    DeleteAllIsFilter(d.tasks, ids);
    DeletedAreListed(d.tasks, ids);
    FilterKeepsDistinctIds(d.tasks, Unlisted(set x | x in ids));
    FilterMembers(d.tasks, Unlisted(set x | x in ids));
  }

  /**
   * deleteTasks([found, missing]) where only the first id names a task:
   * 200, "1 out of 2 tasks found and deleted", and only that task removed.
   */
  lemma DeleteTasksPartly(d: Data, found: Id, missing: Id)
    requires WellFormed(d.columns, d.tasks)
    requires found in TaskIds(d.tasks) && missing !in TaskIds(d.tasks)
    ensures var o := DeleteTasksOutcome(d, [found, missing]);
      var i := FindIndex(TaskIds(d.tasks), found);
      && o.response.statusCode == 200
      && o.response.message == "1" + " out of " + "2" + " tasks found and deleted"
      && o.data.tasks == RemoveAt(d.tasks, i)
      && DeletedTasks(d.tasks, [found, missing]) == [d.tasks[i]]
  {
    DeleteFoundThenMissing(d.tasks, found, missing);
    assert NatToString(1) == "1" && NatToString(2) == "2";
  }

  /** The `ids.forEach` loop over [found, missing]: one splice, one entry. */
  lemma DeleteFoundThenMissing(tasks: seq<Task>, found: Id, missing: Id)
    requires Distinct(TaskIds(tasks))
    requires found in TaskIds(tasks) && missing !in TaskIds(tasks)
    ensures var i := FindIndex(TaskIds(tasks), found);
      && DeleteAll(tasks, [found, missing]) == RemoveAt(tasks, i)
      && DeletedTasks(tasks, [found, missing]) == [tasks[i]]
  {
    var ids := [found, missing];
    var i := FindIndex(TaskIds(tasks), found);
    var rest := RemoveAt(tasks, i);
    assert DeleteAll(tasks, ids[..1]) == rest && DeletedTasks(tasks, ids[..1]) == [tasks[i]] by {
      assert ids[..0] == [];
      DeleteAllStep(tasks, ids, 0);
    }
    assert FindIndex(TaskIds(rest), missing) == -1 by {
      TaskIdsRemoveAt(tasks, i);
      DistinctRemoveAt(TaskIds(tasks), i);
    }
    assert ids[..2] == ids;
    DeleteAllStep(tasks, ids, 1);
  }

  // ---------------------------------------------------------------------
  // The store object

  class Board {
    var columns: seq<Column>
    var tasks: seq<Task>
    /** The document last written to (or read from) the data file. */
    ghost var persisted: Data

    ghost function Snapshot(): Data
      reads this
    {
      Data(columns, tasks)
    }

    /** `let data = readData()`: the snapshot as loaded. */
    constructor (loaded: Data)
      ensures Snapshot() == loaded && persisted == loaded
    {
      columns := loaded.columns;
      tasks := loaded.tasks;
      persisted := loaded;
    }

    /** addColumn(title), with `uuidv4()`'s fresh id as the argument `freshId`. */
    method AddColumn(title: string, freshId: Id) returns (res: MutationResponse)
      requires freshId != "" && freshId !in ColumnIds(columns)
      modifies this
      ensures Outcome(Snapshot(), res) == AddColumnOutcome(old(Snapshot()), title, freshId)
      ensures persisted == Snapshot()
    {
      var newColumn := Column(freshId, title);
      columns := columns + [newColumn];
      persisted := Snapshot();
      res := MutationResponse(201, "Column added successfully", Some(newColumn), None);
    }

    method UpdateColumn(id: Id, title: string) returns (res: MutationResponse)
      modifies this
      ensures Outcome(Snapshot(), res) == UpdateColumnOutcome(old(Snapshot()), id, title)
      ensures res.statusCode == 404 ==> unchanged(this)
      ensures res.statusCode != 404 ==> persisted == Snapshot()
    {
      var columnIndex := FindIndex(ColumnIds(columns), id);
      if columnIndex == -1 {
        return NotFound("Column not found");
      }
      var column := columns[columnIndex];
      column := column.(title := Or(title, column.title));
      columns := columns[columnIndex := column];
      persisted := Snapshot();
      res := MutationResponse(200, "Column updated successfully", None, None);
    }

    method SwapColumns(activeColumnId: Id, overColumnId: Id) returns (res: MutationResponse)
      modifies this
      ensures Outcome(Snapshot(), res) == SwapColumnsOutcome(old(Snapshot()), activeColumnId, overColumnId)
      ensures res.statusCode == 404 ==> unchanged(this)
      ensures res.statusCode != 404 ==> persisted == Snapshot()
    {
      var activeColumnIndex := FindIndex(ColumnIds(columns), activeColumnId);
      var overColumnIndex := FindIndex(ColumnIds(columns), overColumnId);
      if activeColumnIndex == -1 || overColumnIndex == -1 {
        return NotFound("Column not found");
      }
      var activeColumn, overColumn := columns[activeColumnIndex], columns[overColumnIndex];
      columns := columns[activeColumnIndex := overColumn];
      columns := columns[overColumnIndex := activeColumn];
      persisted := Snapshot();
      res := MutationResponse(200, "Column moved successfully", None, None);
    }

    method DeleteColumn(id: Id) returns (res: MutationResponse)
      modifies this
      ensures Outcome(Snapshot(), res) == DeleteColumnOutcome(old(Snapshot()), id)
      ensures res.statusCode == 404 ==> unchanged(this)
      ensures res.statusCode != 404 ==> persisted == Snapshot()
    {
      var columnIndex := FindIndex(ColumnIds(columns), id);
      if columnIndex == -1 {
        return NotFound("Column not found");
      }
      var deletedColumn := columns[columnIndex];
      columns := RemoveAt(columns, columnIndex);
      tasks := Filter(tasks, OutsideColumn(id));
      persisted := Snapshot();
      res := MutationResponse(200, "Column and associated tasks deleted successfully", Some(deletedColumn), None);
    }

    /** addTask(columnId, content), with `uuidv4()`'s fresh id as the argument `freshId`. */
    method AddTask(columnId: Id, content: string, freshId: Id) returns (res: MutationResponse)
      requires freshId !in TaskIds(tasks)
      modifies this
      ensures Outcome(Snapshot(), res) == AddTaskOutcome(old(Snapshot()), columnId, content, freshId)
      ensures res.statusCode == 404 ==> unchanged(this)
      ensures res.statusCode != 404 ==> persisted == Snapshot()
    {
      var columnIndex := FindIndex(ColumnIds(columns), columnId);
      if columnIndex == -1 {
        return NotFound("Column not found");
      }
      var newTask := Task(freshId, columnId, content);
      tasks := tasks + [newTask];
      persisted := Snapshot();
      res := MutationResponse(201, "Task added successfully", None, Some(newTask));
    }

    method UpdateTask(id: Id, content: string) returns (res: MutationResponse)
      modifies this
      ensures Outcome(Snapshot(), res) == UpdateTaskOutcome(old(Snapshot()), id, content)
      ensures res.statusCode == 404 ==> unchanged(this)
      ensures res.statusCode != 404 ==> persisted == Snapshot()
    {
      var taskIndex := FindIndex(TaskIds(tasks), id);
      if taskIndex == -1 {
        return NotFound("Task not found");
      }
      var task := tasks[taskIndex];
      task := task.(content := Or(content, task.content));
      tasks := tasks[taskIndex := task];
      persisted := Snapshot();
      res := MutationResponse(200, "Task updated successfully", None, Some(task));
    }

    method MoveTask(activeTaskId: Id, overTaskId: Id, columnId: Id) returns (res: MutationResponse)
      modifies this
      ensures Outcome(Snapshot(), res) == MoveTaskOutcome(old(Snapshot()), activeTaskId, overTaskId, columnId)
      ensures res.statusCode == 404 ==> unchanged(this)
      ensures res.statusCode != 404 ==> persisted == Snapshot()
    {
      var activeTaskIndex := FindIndex(TaskIds(tasks), activeTaskId);
      var overTaskIndex := FindIndex(TaskIds(tasks), overTaskId);
      if activeTaskIndex == -1 || overTaskIndex == -1 {
        return NotFound("Task not found");
      }
      var activeTask, overTask := tasks[activeTaskIndex], tasks[overTaskIndex];
      if |columnId| > 0 {
        // the active task object is shared with its slot (and, when the two
        // ids coincide, with overTask): all of them see the new column
        activeTask := activeTask.(columnId := columnId);
        tasks := tasks[activeTaskIndex := activeTask];
        if activeTaskIndex == overTaskIndex {
          overTask := activeTask;
        }
      }
      tasks := tasks[activeTaskIndex := overTask];
      tasks := tasks[overTaskIndex := activeTask];
      persisted := Snapshot();
      res := MutationResponse(200, "Task moved successfully", None, None);
    }

    /**
     * The `ids.forEach` loop of deleteTasks: for each id in turn, splices out
     * the first task with that id and records it.
     */
    method RemoveEach(ids: seq<Id>) returns (deletedTasks: seq<Task>)
      modifies this`tasks
      ensures tasks == DeleteAll(old(tasks), ids)
      ensures deletedTasks == DeletedTasks(old(tasks), ids)
    {
      deletedTasks := [];
      var k := 0;
      while k < |ids|
        invariant 0 <= k <= |ids|
        invariant tasks == DeleteAll(old(tasks), ids[..k])
        invariant deletedTasks == DeletedTasks(old(tasks), ids[..k])
      {
        var id := ids[k];
        DeleteAllStep(old(tasks), ids, k);
        var taskIndex := FindIndex(TaskIds(tasks), id);
        if taskIndex != -1 {
          var deletedTask := tasks[taskIndex];
          tasks := RemoveAt(tasks, taskIndex);
          deletedTasks := deletedTasks + [deletedTask];
        }
        k := k + 1;
      }
      assert ids[..k] == ids;
    }

    /** deleteTasks(ids): always writes the snapshot back, whatever was found. */
    method DeleteTasks(ids: seq<Id>) returns (res: MutationResponse)
      modifies this
      ensures Outcome(Snapshot(), res) == DeleteTasksOutcome(old(Snapshot()), ids)
      ensures persisted == Snapshot()
    {
      var deletedTasks := RemoveEach(ids);
      persisted := Snapshot();
      var status := if |deletedTasks| > 0 then 200 else 404;
      res := MutationResponse(status, DeleteTasksMessage(|deletedTasks|, |ids|), None, None);
    }
  }

  // ---------------------------------------------------------------------
  // Scenarios on a freshly loaded store

  /** A board with one column "c1": addTask("c1", "write spec") gives that column exactly one task. */
  method AddTaskScenario(freshId: Id) returns (res: MutationResponse, shown: seq<Task>)
    ensures res.statusCode == 201 && res.task == Some(Task(freshId, "c1", "write spec"))
    ensures shown == [Task(freshId, "c1", "write spec")]
  {
    var board := new Board(Data([Column("c1", "To Do")], []));
    assert ColumnIds(board.columns) == ["c1"];
    res := board.AddTask("c1", "write spec", freshId);
    shown := Filter(board.tasks, InColumn("c1"));
  }

  /** updateColumn("missing-id", "X") answers 404 and leaves the board as it was. */
  method UpdateMissingColumnScenario(loaded: Data) returns (res: MutationResponse, after: Data)
    requires "missing-id" !in ColumnIds(loaded.columns)
    ensures res == NotFound("Column not found") && after == loaded
  {
    var board := new Board(loaded);
    res := board.UpdateColumn("missing-id", "X");
    after := Data(board.columns, board.tasks);
  }
}
