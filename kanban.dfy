/**
 * The board store's data model: the snapshot of columns and tasks, the
 * lookups and sequence edits the mutations are built from, the invariant a
 * well-formed board keeps, and the properties of those edits.
 */
module Kanban {
  import opened Decimal

  /** An entity id: an opaque token (a UUID string once the store issued it). */
  type Id = string

  datatype Column = Column(id: Id, title: string)

  datatype Task = Task(id: Id, columnId: Id, content: string)

  /** The whole document the store rewrites after a mutation. */
  datatype Data = Data(columns: seq<Column>, tasks: seq<Task>)

  datatype Option<+T> = None | Some(value: T)

  /** `{ statusCode, message, column?, task? }`, the answer of every mutation. */
  datatype MutationResponse = MutationResponse(statusCode: nat, message: string, column: Option<Column>, task: Option<Task>)

  /** What a mutation leaves behind: the new snapshot and its answer. */
  datatype Outcome = Outcome(data: Data, response: MutationResponse)

  /** The answer to a mutation naming an id no entity has: 404, no entity. */
  function NotFound(message: string): (r: MutationResponse)
    ensures r.statusCode == 404 && r.column.None? && r.task.None?
  {
    MutationResponse(404, message, None, None)
  }

  // ---------------------------------------------------------------------
  // Ids and lookup

  function ColumnIds(columns: seq<Column>): seq<Id>
  {
    seq(|columns|, i requires 0 <= i < |columns| => columns[i].id)
  }

  function TaskIds(tasks: seq<Task>): seq<Id>
  {
    seq(|tasks|, i requires 0 <= i < |tasks| => tasks[i].id)
  }

  /** `findIndex(x => x.id === id)`: the first position holding `id`, or -1. */
  function FindIndex(ids: seq<Id>, id: Id): (r: int)
    ensures -1 <= r < |ids|
    ensures r == -1 <==> id !in ids
    ensures r != -1 ==> ids[r] == id && id !in ids[..r]
  {
    if ids == [] then -1
    else if ids[0] == id then 0
    else
      var k := FindIndex(ids[1..], id);
      assert ids == [ids[0]] + ids[1..];
      if k == -1 then -1
      else
        assert ids[..k + 1] == [ids[0]] + ids[1..][..k];
        k + 1
  }

  ghost predicate Distinct(ids: seq<Id>)
  {
    forall i, j :: 0 <= i < j < |ids| ==> ids[i] != ids[j]
  }

  /** With unique ids, the lookup finds the one position holding the id. */
  lemma FindIndexOfDistinct(ids: seq<Id>, k: nat)
    requires Distinct(ids) && k < |ids|
    ensures FindIndex(ids, ids[k]) == k
  {
  }

  /**
   * The invariant of a board: ids are unique per kind, column ids are
   * non-empty tokens, and every task lies in a column of the board.
   */
  ghost predicate WellFormed(columns: seq<Column>, tasks: seq<Task>)
  {
    && Distinct(ColumnIds(columns))
    && "" !in ColumnIds(columns)
    && Distinct(TaskIds(tasks))
    && forall t :: t in tasks ==> t.columnId in ColumnIds(columns)
  }

  // ---------------------------------------------------------------------
  // Edits of the ordered sequences

  /**
   * The two splices `splice(i, 1, s[j])` then `splice(j, 1, s[i])`: a
   * positional swap of slots i and j.
   */
  function Swap<T>(s: seq<T>, i: nat, j: nat): (r: seq<T>)
    requires i < |s| && j < |s|
    ensures |r| == |s| && r[i] == s[j] && r[j] == s[i]
    ensures forall k :: 0 <= k < |s| && k != i && k != j ==> r[k] == s[k]
  {
    s[i := s[j]][j := s[i]]
  }

  /**
   * The column order swapColumns(activeId, overId) leaves: the two slots the
   * ids are found at are exchanged, nothing else moves; a missing id leaves
   * the order as it was.
   */
  function SwapColumns(columns: seq<Column>, activeId: Id, overId: Id): (r: seq<Column>)
    ensures |r| == |columns| && multiset(r) == multiset(columns)
    ensures activeId == overId ==> r == columns
    ensures activeId !in ColumnIds(columns) || overId !in ColumnIds(columns) ==> r == columns
    ensures activeId in ColumnIds(columns) && overId in ColumnIds(columns) ==>
      var i, j := FindIndex(ColumnIds(columns), activeId), FindIndex(ColumnIds(columns), overId);
      && r[i] == columns[j] && r[j] == columns[i]
      && forall k :: 0 <= k < |r| && k != i && k != j ==> r[k] == columns[k]
  {
    var i, j := FindIndex(ColumnIds(columns), activeId), FindIndex(ColumnIds(columns), overId);
    if i == -1 || j == -1 then columns
    else
      SwapMultiset(columns, i, j);
      Swap(columns, i, j)
  }

  /**
   * The task order moveTask(activeId, overId, columnId) leaves: the active
   * task, moved to the column named by a non-empty columnId, and the over
   * task exchange slots; every other task stays put; a missing id changes
   * nothing.
   */
  function MoveTasks(tasks: seq<Task>, activeId: Id, overId: Id, columnId: Id): (r: seq<Task>)
    ensures |r| == |tasks|
    ensures activeId !in TaskIds(tasks) || overId !in TaskIds(tasks) ==> r == tasks
    ensures activeId in TaskIds(tasks) && overId in TaskIds(tasks) ==>
      var i, j := FindIndex(TaskIds(tasks), activeId), FindIndex(TaskIds(tasks), overId);
      && r[j] == (if columnId != "" then tasks[i].(columnId := columnId) else tasks[i])
      && (i != j ==> r[i] == tasks[j])
      && forall k :: 0 <= k < |r| && k != i && k != j ==> r[k] == tasks[k]
  {
    var i, j := FindIndex(TaskIds(tasks), activeId), FindIndex(TaskIds(tasks), overId);
    if i == -1 || j == -1 then tasks else Swap(Relabel(tasks, i, columnId), i, j)
  }

  lemma SwapMultiset<T>(s: seq<T>, i: nat, j: nat)
    requires i < |s| && j < |s|
    ensures multiset(Swap(s, i, j)) == multiset(s)
  {
    var t := s[i := s[j]];
    assert multiset(t) == multiset(s) - multiset{s[i]} + multiset{s[j]};
  }

  /** `splice(i, 1)`: slot i removed, later slots shifted down by one. */
  function RemoveAt<T>(s: seq<T>, i: nat): (r: seq<T>)
    requires i < |s|
    ensures |r| == |s| - 1
    ensures forall k :: 0 <= k < i ==> r[k] == s[k]
    ensures forall k :: i <= k < |r| ==> r[k] == s[k + 1]
  {
    s[..i] + s[i + 1..]
  }

  /** `given || current` on strings: an empty (or absent) value keeps the current one. */
  function Or(given: string, current: string): (r: string)
    ensures r == given || r == current
    ensures given != "" ==> r == given
    ensures r == "" <==> given == "" && current == ""
  {
    if given != "" then given else current
  }

  /** `activeTask.columnId = columnId` when `columnId.length > 0`. */
  function Relabel(tasks: seq<Task>, i: nat, columnId: Id): (r: seq<Task>)
    requires i < |tasks|
    ensures |r| == |tasks| && TaskIds(r) == TaskIds(tasks)
    ensures r[i].content == tasks[i].content
    ensures r[i].columnId == (if columnId == "" then tasks[i].columnId else columnId)
    ensures forall k :: 0 <= k < |tasks| && k != i ==> r[k] == tasks[k]
  {
    if |columnId| > 0 then tasks[i := tasks[i].(columnId := columnId)] else tasks
  }

  /**
   * The conditions the store filters tasks by: the tasks of a column (what a
   * column displays), the tasks outside a column (what deleteColumn keeps),
   * the tasks whose id is listed or unlisted (what deleteTasks removes or
   * keeps), and both of two conditions.
   */
  datatype Selector =
    | InColumn(column: Id)
    | OutsideColumn(column: Id)
    | Listed(ids: set<Id>)
    | Unlisted(ids: set<Id>)
    | Both(first: Selector, second: Selector)

  predicate Keeps(sel: Selector, t: Task)
  {
    match sel
    case InColumn(c) => t.columnId == c
    case OutsideColumn(c) => t.columnId != c
    case Listed(ids) => t.id in ids
    case Unlisted(ids) => t.id !in ids
    case Both(p, q) => Keeps(p, t) && Keeps(q, t)
  }

  /** `tasks.filter(...)`: the tasks the selector keeps, in their order. */
  function Filter(s: seq<Task>, sel: Selector): (r: seq<Task>)
    ensures |r| <= |s|
    ensures forall k :: 0 <= k < |r| ==> Keeps(sel, r[k])
  {
    if s == [] then []
    else (if Keeps(sel, s[0]) then [s[0]] else []) + Filter(s[1..], sel)
  }

  /** One iteration of deleteTasks: splice out the first task with id `id`, if any. */
  function RemoveTask(tasks: seq<Task>, id: Id): (r: seq<Task>)
    ensures id !in TaskIds(tasks) ==> r == tasks
    ensures id in TaskIds(tasks) ==>
      var i := FindIndex(TaskIds(tasks), id);
      && tasks[i].id == id
      && |r| == |tasks| - 1
      && multiset(r) + multiset{tasks[i]} == multiset(tasks)
  {
    var i := FindIndex(TaskIds(tasks), id);
    if i == -1 then tasks
    else
      RemoveAtMultiset(tasks, i);
      RemoveAt(tasks, i)
  }

  /** The tasks left after deleteTasks has visited every id of `ids` in order. */
  function DeleteAll(tasks: seq<Task>, ids: seq<Id>): (r: seq<Task>)
    ensures |tasks| - |ids| <= |r| <= |tasks|
    ensures multiset(r) <= multiset(tasks)
    decreases |ids|
  {
    if ids == [] then tasks
    else RemoveTask(DeleteAll(tasks, ids[..|ids| - 1]), ids[|ids| - 1])
  }

  /**
   * The `deletedTasks` list deleteTasks builds: one entry per listed id it
   * found. Removed and remaining tasks together are the tasks it started with.
   */
  function DeletedTasks(tasks: seq<Task>, ids: seq<Id>): (r: seq<Task>)
    ensures |r| <= |ids|
    ensures multiset(r) + multiset(DeleteAll(tasks, ids)) == multiset(tasks)
    decreases |ids|
  {
    if ids == [] then []
    else
      var rest := DeleteAll(tasks, ids[..|ids| - 1]);
      var i := FindIndex(TaskIds(rest), ids[|ids| - 1]);
      var before := DeletedTasks(tasks, ids[..|ids| - 1]);
      if i == -1 then before
      else
        assert DeleteAll(tasks, ids) == RemoveAt(rest, i);
        RemoveAtMultiset(rest, i);
        before + [rest[i]]
  }

  lemma RemoveAtMultiset(s: seq<Task>, i: nat)
    requires i < |s|
    ensures multiset(RemoveAt(s, i)) + multiset{s[i]} == multiset(s)
  {
    assert s == s[..i] + [s[i]] + s[i + 1..];
  }

  /** The message of deleteTasks, from the number removed and the number of ids given. */
  function DeleteTasksMessage(deleted: nat, requested: nat): (r: string)
    ensures requested < 2 ==> r == "Task delete successfully"
    ensures requested >= 2 ==>
      var n := NatToString(deleted);
      |n| < |r| && r[..|n|] == n && r[|n|] == ' '
  {
    if requested < 2 then "Task delete successfully"
    else if deleted == requested then NatToString(deleted) + " tasks deleted successfully"
    else NatToString(deleted) + " out of " + NatToString(requested) + " tasks found and deleted"
  }

  /**
   * From two ids on, the message opens with a numeral that reads back as
   * exactly the number of tasks deleted. It goes on with " tasks deleted
   * successfully" exactly when every id was found; otherwise with " out of "
   * and a numeral that reads back as the number of ids given.
   */
  lemma DeleteTasksMessageCount(deleted: nat, requested: nat)
    requires requested >= 2
    ensures var r, k := DeleteTasksMessage(deleted, requested), |NatToString(deleted)|;
      && k < |r|
      && (forall j :: 0 <= j < k ==> IsDigit(r[j]))
      && !IsDigit(r[k])
      && ParseNat(r[..k]) == deleted
      && (deleted == requested <==> r[k..] == " tasks deleted successfully")
      && (deleted != requested ==>
            var m := NatToString(requested);
            && k + 8 + |m| < |r|
            && r[k..k + 8] == " out of "
            && (forall j :: k + 8 <= j < k + 8 + |m| ==> IsDigit(r[j]))
            && !IsDigit(r[k + 8 + |m|])
            && ParseNat(r[k + 8..k + 8 + |m|]) == requested)
  {
    ParseNatToString(deleted);
    var r, n := DeleteTasksMessage(deleted, requested), NatToString(deleted);
    var k := |n|;
    if deleted == requested {
      assert r == n + " tasks deleted successfully";
      assert r[k..] == " tasks deleted successfully";
    } else {
      ParseNatToString(requested);
      var m := NatToString(requested);
      var tail := " tasks found and deleted";
      assert r == n + " out of " + m + tail;
      assert r[k + 1] == 'o';
      assert r[k..] != " tasks deleted successfully" by {
        assert " tasks deleted successfully"[1] == 't';
      }
      assert r[k..k + 8] == " out of ";
      assert r[k + 8..k + 8 + |m|] == m;
      assert r[k + 8 + |m|] == ' ';
    }
  }

  // ---------------------------------------------------------------------
  // The mutations both store modules implement alike

  /** addColumn(title), given the id the store generates: always 201, the column appended. */
  function AddColumnOutcome(d: Data, title: string, freshId: Id): (o: Outcome)
    ensures o.response.statusCode == 201 && o.response.column == Some(Column(freshId, title))
    ensures o.data.tasks == d.tasks
    ensures |o.data.columns| == |d.columns| + 1 && o.data.columns[..|d.columns|] == d.columns
    ensures o.data.columns[|d.columns|] == Column(freshId, title)
  {
    var newColumn := Column(freshId, title);
    Outcome(Data(d.columns + [newColumn], d.tasks),
            MutationResponse(201, "Column added successfully", Some(newColumn), None))
  }

  /**
   * deleteColumn(id): 404 and no change for an unknown id; otherwise the
   * column is spliced out, every task naming it is filtered away, and the
   * answer carries the deleted column.
   */
  function DeleteColumnOutcome(d: Data, id: Id): (o: Outcome)
    ensures o.response.statusCode == 404 <==> id !in ColumnIds(d.columns)
    ensures id !in ColumnIds(d.columns) ==> o == Outcome(d, NotFound("Column not found"))
    ensures id in ColumnIds(d.columns) ==>
      var i := FindIndex(ColumnIds(d.columns), id);
      && o.response.statusCode == 200
      && o.response.column == Some(d.columns[i]) && d.columns[i].id == id
      && o.data.columns == RemoveAt(d.columns, i)
      && o.data.tasks == Filter(d.tasks, OutsideColumn(id))
  {
    var i := FindIndex(ColumnIds(d.columns), id);
    if i == -1 then Outcome(d, NotFound("Column not found"))
    else
      Outcome(Data(RemoveAt(d.columns, i), Filter(d.tasks, OutsideColumn(id))),
              MutationResponse(200, "Column and associated tasks deleted successfully", Some(d.columns[i]), None))
  }

  /**
   * addTask(columnId, content), given the id the store generates: 404 and no
   * change when no column has that id; otherwise 201 and the task appended.
   */
  function AddTaskOutcome(d: Data, columnId: Id, content: string, freshId: Id): (o: Outcome)
    ensures o.response.statusCode == 404 <==> columnId !in ColumnIds(d.columns)
    ensures columnId !in ColumnIds(d.columns) ==> o == Outcome(d, NotFound("Column not found"))
    ensures columnId in ColumnIds(d.columns) ==>
      && o.response == MutationResponse(201, "Task added successfully", None, Some(Task(freshId, columnId, content)))
      && o.data.columns == d.columns
      && |o.data.tasks| == |d.tasks| + 1 && o.data.tasks[..|d.tasks|] == d.tasks
      && o.data.tasks[|d.tasks|] == Task(freshId, columnId, content)
  {
    if FindIndex(ColumnIds(d.columns), columnId) == -1 then Outcome(d, NotFound("Column not found"))
    else
      var newTask := Task(freshId, columnId, content);
      Outcome(Data(d.columns, d.tasks + [newTask]),
              MutationResponse(201, "Task added successfully", None, Some(newTask)))
  }
}
