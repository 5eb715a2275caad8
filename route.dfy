/**
 * The board store of the Apollo route handler: a second copy of the store,
 * loaded from the same data file, with six mutations. It shares addColumn,
 * deleteColumn and addTask with the resolvers module, answers updateColumn
 * with the updated column, lets updateTask move a task to another column
 * (checking that column before the task), and deletes one task at a time.
 */
module Route {
  import opened Kanban
  import opened KanbanLemmas
  import Resolvers

  // ---------------------------------------------------------------------
  // What the mutations of this module do to the snapshot

  /**
   * updateColumn(id, title): 404 and no change for an unknown id; otherwise
   * only that column's title changes (an empty title keeps it), and the
   * updated column comes back with 200.
   */
  function UpdateColumnOutcome(d: Data, id: Id, title: string): (o: Outcome)
    ensures o.response.statusCode == 404 <==> id !in ColumnIds(d.columns)
    ensures id !in ColumnIds(d.columns) ==> o == Outcome(d, NotFound("Column not found"))
    ensures id in ColumnIds(d.columns) ==>
      var i := FindIndex(ColumnIds(d.columns), id);
      && o.data.tasks == d.tasks
      && |o.data.columns| == |d.columns|
      && o.data.columns[i] == Column(id, if title == "" then d.columns[i].title else title)
      && (forall k :: 0 <= k < |d.columns| && k != i ==> o.data.columns[k] == d.columns[k])
      && o.response == MutationResponse(200, "Column updated successfully", Some(o.data.columns[i]), None)
  {
    var i := FindIndex(ColumnIds(d.columns), id);
    if i == -1 then Outcome(d, NotFound("Column not found"))
    else
      var column := d.columns[i].(title := Or(title, d.columns[i].title));
      Outcome(Data(d.columns[i := column], d.tasks),
              MutationResponse(200, "Column updated successfully", Some(column), None))
  }

  /**
   * updateTask(id, columnId, content): "Column not found" is checked first,
   * then "Task not found", each with no change; otherwise only that task
   * changes, taking the columnId and the content unless they are empty, and
   * it comes back with 200.
   */
  function UpdateTaskOutcome(d: Data, id: Id, columnId: Id, content: string): (o: Outcome)
    ensures o.response.statusCode == 404 <==> columnId !in ColumnIds(d.columns) || id !in TaskIds(d.tasks)
    ensures columnId !in ColumnIds(d.columns) ==> o == Outcome(d, NotFound("Column not found"))
    ensures columnId in ColumnIds(d.columns) && id !in TaskIds(d.tasks) ==> o == Outcome(d, NotFound("Task not found"))
    ensures columnId in ColumnIds(d.columns) && id in TaskIds(d.tasks) ==>
      var i := FindIndex(TaskIds(d.tasks), id);
      var was := d.tasks[i];
      && o.data.columns == d.columns
      && |o.data.tasks| == |d.tasks|
      && o.data.tasks[i] == Task(id, if columnId == "" then was.columnId else columnId,
                                     if content == "" then was.content else content)
      && (forall k :: 0 <= k < |d.tasks| && k != i ==> o.data.tasks[k] == d.tasks[k])
      && o.response == MutationResponse(200, "Task updated successfully", None, Some(o.data.tasks[i]))
  {
    if FindIndex(ColumnIds(d.columns), columnId) == -1 then Outcome(d, NotFound("Column not found"))
    else
      var i := FindIndex(TaskIds(d.tasks), id);
      if i == -1 then Outcome(d, NotFound("Task not found"))
      else
        var task := d.tasks[i].(columnId := Or(columnId, d.tasks[i].columnId));
        var updated := task.(content := Or(content, task.content));
        Outcome(Data(d.columns, d.tasks[i := updated]),
                MutationResponse(200, "Task updated successfully", None, Some(updated)))
  }

  /**
   * deleteTask(id): 404 and no change for an unknown id; otherwise that task
   * alone is spliced out, the others keeping their order, and it comes back
   * with 200.
   */
  function DeleteTaskOutcome(d: Data, id: Id): (o: Outcome)
    ensures o.response.statusCode == 404 <==> id !in TaskIds(d.tasks)
    ensures id !in TaskIds(d.tasks) ==> o == Outcome(d, NotFound("Task not found"))
    ensures id in TaskIds(d.tasks) ==>
      var i := FindIndex(TaskIds(d.tasks), id);
      && o.data == Data(d.columns, RemoveAt(d.tasks, i))
      && o.response == MutationResponse(200, "Task deleted successfully", None, Some(d.tasks[i]))
      && d.tasks[i].id == id
  {
    var i := FindIndex(TaskIds(d.tasks), id);
    if i == -1 then Outcome(d, NotFound("Task not found"))
    else
      Outcome(Data(d.columns, RemoveAt(d.tasks, i)),
              MutationResponse(200, "Task deleted successfully", None, Some(d.tasks[i])))
  }

  // ---------------------------------------------------------------------
  // Properties of those mutations

  lemma UpdateColumnKeepsWellFormed(d: Data, id: Id, title: string)
    requires WellFormed(d.columns, d.tasks)
    ensures var o := UpdateColumnOutcome(d, id, title); WellFormed(o.data.columns, o.data.tasks)
  {
    UpdateColumnAgrees(d, id, title);
    Resolvers.UpdateColumnKeepsWellFormed(d, id, title);
  }

  /** Both stores rename a column alike; only their answers differ. */
  lemma UpdateColumnAgrees(d: Data, id: Id, title: string)
    ensures UpdateColumnOutcome(d, id, title).data == Resolvers.UpdateColumnOutcome(d, id, title).data
    ensures UpdateColumnOutcome(d, id, title).response.statusCode
         == Resolvers.UpdateColumnOutcome(d, id, title).response.statusCode
  {
  }

  /**
   * On a well-formed board updateTask keeps it well-formed, and a task it
   * updates always lands in the column named by the call.
   */
  lemma UpdateTaskKeepsWellFormed(d: Data, id: Id, columnId: Id, content: string)
    requires WellFormed(d.columns, d.tasks)
    ensures var o := UpdateTaskOutcome(d, id, columnId, content);
      && WellFormed(o.data.columns, o.data.tasks)
      && (o.response.statusCode == 200 ==> o.response.task.Some? && o.response.task.value.columnId == columnId)
  {
    if columnId in ColumnIds(d.columns) {
      var i := FindIndex(TaskIds(d.tasks), id);
      if i != -1 {
        var was := d.tasks[i];
        ReplaceTaskKeepsWellFormed(d.columns, d.tasks, i, Task(id, columnId, Or(content, was.content)));
      }
    }
  }

  /** On a well-formed board deleteTask keeps it well-formed, and the id is gone afterwards. */
  lemma DeleteTaskKeepsWellFormed(d: Data, id: Id)
    requires WellFormed(d.columns, d.tasks)
    ensures var o := DeleteTaskOutcome(d, id);
      WellFormed(o.data.columns, o.data.tasks) && id !in TaskIds(o.data.tasks)
  {
    var i := FindIndex(TaskIds(d.tasks), id);
    if i != -1 {
      RemoveTaskAtKeepsWellFormed(d.columns, d.tasks, i);
    }
  }

  /** deleteTask(id) leaves the board deleteTasks([id]) of the resolvers leaves. */
  lemma DeleteTaskAgrees(d: Data, id: Id)
    ensures DeleteTaskOutcome(d, id).data == Resolvers.DeleteTasksOutcome(d, [id]).data
  {
  }

  // ---------------------------------------------------------------------
  // The store object

  class Board {
    var columns: seq<Column>
    var tasks: seq<Task>
    /** The document last written to (or read from) the data file. */
    ghost var persisted: Data

    ghost function Snapshot(): Data
      reads this
    {
      Data(columns, tasks)
    }

    /** `const data = JSON.parse(readFileSync(...))`: the snapshot as loaded. */
    constructor (loaded: Data)
      ensures Snapshot() == loaded && persisted == loaded
    {
      columns := loaded.columns;
      tasks := loaded.tasks;
      persisted := loaded;
    }

    /** addColumn(title), with `uuidv4()`'s fresh id as the argument `freshId`. */
    method AddColumn(title: string, freshId: Id) returns (res: MutationResponse)
      requires freshId != "" && freshId !in ColumnIds(columns)
      modifies this
      ensures Outcome(Snapshot(), res) == AddColumnOutcome(old(Snapshot()), title, freshId)
      ensures persisted == Snapshot()
    {
      var newColumn := Column(freshId, title);
      columns := columns + [newColumn];
      persisted := Snapshot();
      res := MutationResponse(201, "Column added successfully", Some(newColumn), None);
    }

    method UpdateColumn(id: Id, title: string) returns (res: MutationResponse)
      modifies this
      ensures Outcome(Snapshot(), res) == UpdateColumnOutcome(old(Snapshot()), id, title)
      ensures res.statusCode == 404 ==> unchanged(this)
      ensures res.statusCode != 404 ==> persisted == Snapshot()
    {
      var columnIndex := FindIndex(ColumnIds(columns), id);
      if columnIndex == -1 {
        return NotFound("Column not found");
      }
      var column := columns[columnIndex];
      column := column.(title := Or(title, column.title));
      columns := columns[columnIndex := column];
      persisted := Snapshot();
      res := MutationResponse(200, "Column updated successfully", Some(column), None);
    }

    method DeleteColumn(id: Id) returns (res: MutationResponse)
      modifies this
      ensures Outcome(Snapshot(), res) == DeleteColumnOutcome(old(Snapshot()), id)
      ensures res.statusCode == 404 ==> unchanged(this)
      ensures res.statusCode != 404 ==> persisted == Snapshot()
    {
      var columnIndex := FindIndex(ColumnIds(columns), id);
      if columnIndex == -1 {
        return NotFound("Column not found");
      }
      var deletedColumn := columns[columnIndex];
      columns := RemoveAt(columns, columnIndex);
      tasks := Filter(tasks, OutsideColumn(id));
      persisted := Snapshot();
      res := MutationResponse(200, "Column and associated tasks deleted successfully", Some(deletedColumn), None);
    }

    /** addTask(columnId, content), with `uuidv4()`'s fresh id as the argument `freshId`. */
    method AddTask(columnId: Id, content: string, freshId: Id) returns (res: MutationResponse)
      requires freshId !in TaskIds(tasks)
      modifies this
      ensures Outcome(Snapshot(), res) == AddTaskOutcome(old(Snapshot()), columnId, content, freshId)
      ensures res.statusCode == 404 ==> unchanged(this)
      ensures res.statusCode != 404 ==> persisted == Snapshot()
    {
      var columnIndex := FindIndex(ColumnIds(columns), columnId);
      if columnIndex == -1 {
        return NotFound("Column not found");
      }
      var newTask := Task(freshId, columnId, content);
      tasks := tasks + [newTask];
      persisted := Snapshot();
      res := MutationResponse(201, "Task added successfully", None, Some(newTask));
    }

    method UpdateTask(id: Id, columnId: Id, content: string) returns (res: MutationResponse)
      modifies this
      ensures Outcome(Snapshot(), res) == UpdateTaskOutcome(old(Snapshot()), id, columnId, content)
      ensures res.statusCode == 404 ==> unchanged(this)
      ensures res.statusCode != 404 ==> persisted == Snapshot()
    {
      var columnIndex := FindIndex(ColumnIds(columns), columnId);
      if columnIndex == -1 {
        return NotFound("Column not found");
      }
      var taskIndex := FindIndex(TaskIds(tasks), id);
      if taskIndex == -1 {
        return NotFound("Task not found");
      }
      var task := tasks[taskIndex];
      task := task.(columnId := Or(columnId, task.columnId));
      task := task.(content := Or(content, task.content));
      tasks := tasks[taskIndex := task];
      persisted := Snapshot();
      res := MutationResponse(200, "Task updated successfully", None, Some(task));
    }

    method DeleteTask(id: Id) returns (res: MutationResponse)
      modifies this
      ensures Outcome(Snapshot(), res) == DeleteTaskOutcome(old(Snapshot()), id)
      ensures res.statusCode == 404 ==> unchanged(this)
      ensures res.statusCode != 404 ==> persisted == Snapshot()
    {
      var taskIndex := FindIndex(TaskIds(tasks), id);
      if taskIndex == -1 {
        return NotFound("Task not found");
      }
      var deletedTask := tasks[taskIndex];
      tasks := RemoveAt(tasks, taskIndex);
      persisted := Snapshot();
      res := MutationResponse(200, "Task deleted successfully", None, Some(deletedTask));
    }
  }

  // ---------------------------------------------------------------------
  // Scenarios on a freshly loaded store

  /** updateTask with an unknown column answers "Column not found" even when the task is missing too. */
  method UpdateTaskColumnFirstScenario(loaded: Data, id: Id, columnId: Id) returns (res: MutationResponse, after: Data)
    requires columnId !in ColumnIds(loaded.columns) && id !in TaskIds(loaded.tasks)
    ensures res == NotFound("Column not found") && after == loaded
  {
    var board := new Board(loaded);
    res := board.UpdateTask(id, columnId, "");
    after := Data(board.columns, board.tasks);
  }

  /** addColumn then deleteColumn of the new id gives back the board as loaded. */
  method AddThenDeleteColumnScenario(loaded: Data, title: string, freshId: Id) returns (after: Data)
    requires WellFormed(loaded.columns, loaded.tasks)
    requires freshId != "" && freshId !in ColumnIds(loaded.columns)
    ensures after == loaded
  {
    var board := new Board(loaded);
    var added := board.AddColumn(title, freshId);
    var deleted := board.DeleteColumn(freshId);
    after := Data(board.columns, board.tasks);
    AddThenDeleteColumn(loaded, title, freshId);
  }
}
