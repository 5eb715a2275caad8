# Kanban board store, modelled in Dafny

The kanban board keeps one snapshot of its columns and tasks in memory. It
changes that snapshot through GraphQL mutations and writes the whole
document back to its data file after each change. Two modules of the
repository do this, each holding its own copy of the snapshot:

- the resolvers module, with eight mutations: addColumn, updateColumn,
  swapColumns, deleteColumn, addTask, updateTask, moveTask, deleteTasks;
- the route handler, with six mutations: addColumn, updateColumn,
  deleteColumn, addTask, updateTask, deleteTask.

The model has five files:

- `decimal.dfy` (module `Decimal`) prints a count the way a template literal
  does. deleteTasks builds its message with it.
- `kanban.dfy` (module `Kanban`) holds the data model and the lookups.
  - Datatypes `Column`, `Task`, `Data` (the snapshot), `MutationResponse`
    (the answer of every mutation) and `Outcome` (new snapshot plus answer).
  - `FindIndex` is `findIndex`, returning -1 when nothing matches.
  - The sequence edits the mutations are made of: the positional swap, the
    `splice`, the `filter`, and the deleteTasks loop.
  - `WellFormed` is the invariant of a board. Column ids and task ids are
    unique, column ids are non-empty, and every task lies in a column of
    the board.
  - It also has the outcome functions of the three mutations both modules
    implement alike.
- `kanban_lemmas.dfy` (module `KanbanLemmas`) proves the properties of those
  edits:
  - the swap is its own inverse;
  - filters keep order and compose;
  - deleteTasks is a filter on a board with unique ids;
  - the cascade of deleteColumn leaves every other column as it was;
  - addColumn, deleteColumn and addTask keep a board well-formed.
- `resolvers.dfy` (module `Resolvers`) and `route.dfy` (module `Route`) model
  one store module each:
  - For every mutation, a function from the snapshot before to the
    `Outcome` states what the mutation does.
  - Lemmas prove what the store promises about that outcome.
  - A class `Board` holds the snapshot in its `columns` and `tasks` fields.
    Its methods perform the same steps as the source: look up, splice,
    assign, write back. Each method is proved to reach exactly the outcome
    its function describes.

Writing the data file is the ghost field `persisted`. It is set to the
snapshot wherever the source writes the file. A mutation that answers 404
leaves the whole object unchanged, so nothing is written. deleteTasks
always writes.

`uuidv4()` becomes an argument `freshId`. The caller must supply an id the
snapshot does not hold yet (and, for a column, a non-empty one).

Points where the code behaves in ways a reader might not expect:

- deleteTasks takes a list, not a set. An id listed twice is looked up
  twice. The message counts the list's length, repetitions included.
- deleteTasks answers 404 when it deletes nothing.
- Only the route's updateTask checks its column, and it does so before
  looking up the task.
- moveTask does not check the column it moves a task to. `MoveTaskCanOrphan`
  exhibits a board that is well-formed before the call and not after it.

## Model

| member | source | states |
|---|---|---|
| Decimal.NatToString | src/app/api/graphql/resolvers.ts:236-237 | the numeral printed for a count is non-empty, all digits, and has no leading zero except for 0 itself |
| Decimal.ParseNatToString | src/app/api/graphql/resolvers.ts:236-237 | reading the printed numeral back gives the count, for every count |
| Kanban.FindIndex | src/app/api/graphql/resolvers.ts:57 | -1 exactly when no element has the id; otherwise the first position holding it |
| Kanban.SwapColumns | src/app/api/graphql/resolvers.ts:81-97 | same length and same columns; with both ids present the two slots found are exchanged and every other slot stays; a missing id, or the same id twice, changes nothing |
| Kanban.MoveTasks | src/app/api/graphql/resolvers.ts:180-201 | the active task (relabelled when columnId is non-empty) lands in the over task's slot and the over task in the active slot; every other slot stays; a missing id changes nothing |
| Kanban.Swap | src/app/api/graphql/resolvers.ts:96-97 | the two splices exchange slots i and j and leave every other slot and the length as they were |
| Kanban.Or | src/app/api/graphql/resolvers.ts:62 | the fallback to the current value: one of the two values, the given one whenever it is non-empty, and empty only when both are |
| Kanban.Relabel | src/app/api/graphql/resolvers.ts:195-197 | with a non-empty columnId only the active task's column changes, to that id; its id and content and every other task stay; an empty columnId changes nothing |
| Kanban.RemoveAt | src/app/api/graphql/resolvers.ts:119 | `splice(i, 1)`: one element fewer, the earlier slots kept, the later ones shifted down by one |
| Kanban.Filter | src/app/api/graphql/resolvers.ts:122 | no longer than the input, and every task kept satisfies the condition |
| Kanban.RemoveTask | src/app/api/graphql/resolvers.ts:221-224 | an id no task has changes nothing; otherwise the first task with that id is removed: one task fewer, and the removed task plus the rest are exactly the tasks before |
| Kanban.DeleteAll | src/app/api/graphql/resolvers.ts:220-226 | the tasks left after the loop: at most one fewer per listed id, and only tasks that were there before |
| Kanban.DeleteTasksMessage | src/app/api/graphql/resolvers.ts:232-237 | fewer than two ids: "Task delete successfully", whatever was deleted; from two ids on, the message opens with the printed deleted count followed by a space (which message follows is stated by DeleteTasksMessageCount) |
| Kanban.DeleteTasksMessageCount | src/app/api/graphql/resolvers.ts:233-237 | from two ids on, the digits the message opens with read back as exactly the number of tasks deleted; the rest is " tasks deleted successfully" exactly when every id was found, and otherwise " out of " followed by digits that read back as exactly the number of ids given |
| Kanban.DeletedTasks | src/app/api/graphql/resolvers.ts:217-226 | at most one deleted task per listed id, and the deleted and remaining tasks together are exactly the tasks before the call |
| Kanban.AddColumnOutcome | src/app/api/graphql/resolvers.ts:37-48 | always 201 with the new column; the column list grows by exactly one, keeps its prefix and ends with the new column; tasks unchanged |
| Kanban.DeleteColumnOutcome | src/app/api/graphql/resolvers.ts:114-130 | 404 with no change exactly when the id is unknown; otherwise 200 with the deleted column (the one at the slot the id is found at); the remaining columns are the old ones with exactly that slot spliced out, in their order; exactly the tasks of other columns kept |
| Kanban.AddTaskOutcome | src/app/api/graphql/resolvers.ts:136-152 | 404 with no change exactly when the column is unknown; otherwise 201 with the new task appended at the end, columns unchanged |
| KanbanLemmas.SwapColumnsInvolution | src/app/api/graphql/resolvers.ts:81-97 | with unique column ids, swapping the same two ids twice restores the column order |
| KanbanLemmas.MoveTasksInvolution | src/app/api/graphql/resolvers.ts:180-201 | with unique task ids, moveTask(a, b, "") twice restores the task order |
| KanbanLemmas.SwapRelocates | src/app/api/graphql/resolvers.ts:96-97 | after a swap each of the two ids is found at the other's former slot |
| KanbanLemmas.FilterMembers | src/app/api/graphql/resolvers.ts:122 | a task is in the filtered list exactly when it was in the list and satisfies the condition |
| KanbanLemmas.FilterConcat | src/app/api/graphql/resolvers.ts:122 | filtering distributes over concatenation, so relative order is kept |
| KanbanLemmas.FilterCommute | src/app/api/graphql/resolvers.ts:122 | two filters give the same result in either order |
| KanbanLemmas.FilterKeepsDistinctIds | src/app/api/graphql/resolvers.ts:122 | filtering a task list with unique ids leaves unique ids |
| KanbanLemmas.CascadeKeepsOtherColumns | src/app/api/graphql/resolvers.ts:119-122 | after the cascade of deleteColumn(id) column id shows no task and every other column shows the same tasks in the same order |
| KanbanLemmas.RemoveTaskIsFilter | src/app/api/graphql/resolvers.ts:221-224 | with unique ids, splicing out the first task with id x is the same as filtering out id x |
| KanbanLemmas.DeleteAllIsFilter | src/app/api/graphql/resolvers.ts:220-226 | with unique task ids, the deleteTasks loop keeps exactly the tasks whose id is not listed, in order, whatever the order or repetition of the ids |
| KanbanLemmas.FilterPartition | src/app/api/graphql/resolvers.ts:220-226 | the listed and the unlisted tasks together are all the tasks |
| KanbanLemmas.DeletedAreListed | src/app/api/graphql/resolvers.ts:217-226 | with unique task ids, the tasks reported deleted are exactly the tasks whose id is listed |
| KanbanLemmas.DeleteTasksKeepsColumnOrder | src/app/api/graphql/resolvers.ts:220-226 | after deleteTasks every column shows its unlisted tasks in their former order |
| KanbanLemmas.AddColumnKeepsWellFormed | src/app/api/graphql/resolvers.ts:37-42 | addColumn with a fresh non-empty id keeps the board well-formed, and the new id is a column id |
| KanbanLemmas.AddThenDeleteColumn | src/app/api/graphql/resolvers.ts:114-124 | deleteColumn of a column just added gives back the board as it was |
| KanbanLemmas.DeleteColumnKeepsWellFormed | src/app/api/graphql/resolvers.ts:114-124 | deleteColumn keeps the board well-formed and the id is no column's afterwards: no task is orphaned |
| KanbanLemmas.AddTaskKeepsWellFormed | src/app/api/graphql/resolvers.ts:136-146 | addTask with a fresh id keeps the board well-formed |
| KanbanLemmas.RemoveTaskAtKeepsWellFormed | src/app/api/graphql/route.ts:179-184 | splicing out one task keeps the board well-formed and its id is gone |
| Resolvers.UpdateColumnOutcome | src/app/api/graphql/resolvers.ts:57-69 | 404 with no change exactly when the id is unknown; otherwise 200 and only that column's title changes, an empty title keeping the old one |
| Resolvers.SwapColumnsOutcome | src/app/api/graphql/resolvers.ts:81-104 | 404 with no change exactly when either id is unknown; the columns become the positional swap; tasks unchanged |
| Resolvers.UpdateTaskOutcome | src/app/api/graphql/resolvers.ts:158-167 | 404 with no change exactly when the id is unknown; otherwise only that task's content changes (empty keeps it), and the updated task is returned |
| Resolvers.MoveTaskOutcome | src/app/api/graphql/resolvers.ts:180-208 | 404 with no change exactly when either id is unknown; the tasks become the positional swap with the active task relabelled; columns unchanged |
| Resolvers.DeleteTasksOutcome | src/app/api/graphql/resolvers.ts:217-238 | columns unchanged; deleted and remaining tasks partition the old tasks; 200 exactly when something was deleted, else 404; the message counts deleted and requested ids |
| Resolvers.UpdateColumnKeepsWellFormed | src/app/api/graphql/resolvers.ts:57-64 | updateColumn keeps the board well-formed |
| Resolvers.SwapColumnsKeepsWellFormed | src/app/api/graphql/resolvers.ts:81-99 | swapColumns keeps the board well-formed |
| Resolvers.SwapColumnsTwice | src/app/api/graphql/resolvers.ts:81-104 | swapColumns(a, b) applied twice restores the snapshot |
| Resolvers.UpdateTaskKeepsWellFormed | src/app/api/graphql/resolvers.ts:158-165 | updateTask keeps the board well-formed |
| Resolvers.MoveTaskKeepsWellFormed | src/app/api/graphql/resolvers.ts:180-203 | moveTask keeps the board well-formed when its columnId is empty or names a column |
| Resolvers.MoveTaskCanOrphan | src/app/api/graphql/resolvers.ts:195-197 | a well-formed board on which moveTask answers 200 and leaves a task in a column that does not exist |
| Resolvers.MoveTaskTwice | src/app/api/graphql/resolvers.ts:180-208 | moveTask(a, b, "") applied twice restores the snapshot |
| Resolvers.DeleteTasksKeepsWellFormed | src/app/api/graphql/resolvers.ts:217-228 | deleteTasks keeps the board well-formed, keeps exactly the unlisted tasks in order, and reports exactly the listed ones as deleted |
| Resolvers.DeleteTasksPartly | src/app/api/graphql/resolvers.ts:217-238 | deleteTasks([found, missing]): 200, "1 out of 2 tasks found and deleted", only the found task removed and reported |
| Resolvers.DeleteFoundThenMissing | src/app/api/graphql/resolvers.ts:220-226 | the loop over [found, missing] splices out exactly the found task and records it alone |
| Resolvers.Board.constructor | src/app/api/graphql/resolvers.ts:17 | the store starts from the snapshot read from the data file |
| Resolvers.Board.AddColumn | src/app/api/graphql/resolvers.ts:37-48 | reaches AddColumnOutcome and writes the snapshot |
| Resolvers.Board.UpdateColumn | src/app/api/graphql/resolvers.ts:57-69 | reaches UpdateColumnOutcome; on 404 nothing changes, otherwise the snapshot is written |
| Resolvers.Board.SwapColumns | src/app/api/graphql/resolvers.ts:81-104 | reaches SwapColumnsOutcome by the two splices; on 404 nothing changes, otherwise the snapshot is written |
| Resolvers.Board.DeleteColumn | src/app/api/graphql/resolvers.ts:114-130 | reaches DeleteColumnOutcome; on 404 nothing changes, otherwise the snapshot is written |
| Resolvers.Board.AddTask | src/app/api/graphql/resolvers.ts:136-152 | reaches AddTaskOutcome; on 404 nothing changes, otherwise the snapshot is written |
| Resolvers.Board.UpdateTask | src/app/api/graphql/resolvers.ts:158-167 | reaches UpdateTaskOutcome; on 404 nothing changes, otherwise the snapshot is written |
| Resolvers.Board.MoveTask | src/app/api/graphql/resolvers.ts:180-208 | reaches MoveTaskOutcome, including the shared active task object being relabelled in place; on 404 nothing changes |
| Resolvers.Board.RemoveEach | src/app/api/graphql/resolvers.ts:217-226 | the forEach loop leaves the tasks DeleteAll describes and collects the tasks DeletedTasks describes |
| Resolvers.Board.DeleteTasks | src/app/api/graphql/resolvers.ts:217-238 | reaches DeleteTasksOutcome and always writes the snapshot |
| Resolvers.AddTaskScenario | src/app/api/graphql/resolvers.ts:136-152 | on a board with one empty column "c1", addTask("c1", "write spec") answers 201 with the task, and column "c1" then shows exactly that task |
| Resolvers.UpdateMissingColumnScenario | src/app/api/graphql/resolvers.ts:57-59 | updateColumn("missing-id", "X") answers 404 and leaves the snapshot unchanged |
| Route.UpdateColumnOutcome | src/app/api/graphql/route.ts:85-98 | 404 with no change exactly when the id is unknown; otherwise only that column's title changes (empty keeps it) and the updated column comes back with 200 |
| Route.UpdateTaskOutcome | src/app/api/graphql/route.ts:159-173 | "Column not found" first, then "Task not found", each with no change; otherwise only that task changes, taking the non-empty columnId and content, and comes back with 200 |
| Route.DeleteTaskOutcome | src/app/api/graphql/route.ts:179-190 | 404 with no change exactly when the id is unknown; otherwise exactly the first task with that id is spliced out and returned with 200 |
| Route.UpdateColumnKeepsWellFormed | src/app/api/graphql/route.ts:85-92 | updateColumn keeps the board well-formed (through its agreement with the resolvers' updateColumn) |
| Route.UpdateColumnAgrees | src/app/api/graphql/route.ts:85-98 | the two stores' updateColumn leave the same snapshot and the same status |
| Route.UpdateTaskKeepsWellFormed | src/app/api/graphql/route.ts:159-171 | updateTask keeps the board well-formed, and an updated task always lies in the column the call named |
| Route.DeleteTaskKeepsWellFormed | src/app/api/graphql/route.ts:179-184 | deleteTask keeps the board well-formed and the id is gone afterwards |
| Route.DeleteTaskAgrees | src/app/api/graphql/route.ts:179-190 | deleteTask(id) leaves the same snapshot as the resolvers' deleteTasks([id]) |
| Route.Board.constructor | src/app/api/graphql/route.ts:9 | the store starts from the snapshot read from the data file |
| Route.Board.AddColumn | src/app/api/graphql/route.ts:64-75 | reaches AddColumnOutcome and writes the snapshot |
| Route.Board.UpdateColumn | src/app/api/graphql/route.ts:85-98 | reaches Route.UpdateColumnOutcome; on 404 nothing changes, otherwise the snapshot is written |
| Route.Board.DeleteColumn | src/app/api/graphql/route.ts:109-127 | reaches DeleteColumnOutcome; on 404 nothing changes, otherwise the snapshot is written |
| Route.Board.AddTask | src/app/api/graphql/route.ts:133-149 | reaches AddTaskOutcome; on 404 nothing changes, otherwise the snapshot is written |
| Route.Board.UpdateTask | src/app/api/graphql/route.ts:159-173 | reaches Route.UpdateTaskOutcome; on 404 nothing changes, otherwise the snapshot is written |
| Route.Board.DeleteTask | src/app/api/graphql/route.ts:179-190 | reaches Route.DeleteTaskOutcome; on 404 nothing changes, otherwise the snapshot is written |
| Route.UpdateTaskColumnFirstScenario | src/app/api/graphql/route.ts:159-165 | with both the column and the task unknown, updateTask answers "Column not found" and changes nothing |
| Route.AddThenDeleteColumnScenario | src/app/api/graphql/route.ts:64-127 | on a well-formed board, addColumn followed by deleteColumn of the new id gives back the loaded snapshot |

## Left out

- Reading and writing `data.json` are not modelled as I/O. The load is the constructor's argument. Each write is the ghost field `persisted`, set to the whole snapshot. Pretty-printing and JSON encoding are not modelled, and neither are I/O failures.
- `uuidv4()` is not modelled. Its id is the argument `freshId`, required to be fresh (non-empty for a column). Uniqueness of the generator itself is assumed through that precondition.
- The Query resolvers (`columns`, `tasks`) are not modelled: they only return the fields.
- The Apollo server set-up, the schema and the Next.js handler wiring are not modelled. The React components and the client-side drag state are not either.
- Concurrency is not modelled. Requests interleaving on the shared snapshot are outside the model, and so is the last-write-wins race between the two modules' separate copies of the snapshot. Each class is one copy, and each method runs to completion.
- A GraphQL argument that is absent or `null` is modelled as the empty string. In updateColumn and updateTask (resolvers.ts:62, 163; route.ts:90, 168-169) the source falls back to the current value with `||`, which treats `null`, absent and empty alike, so the model is exact there. A `null` or absent columnId given to resolvers' moveTask would throw on `columnId.length` (`null.length` or `undefined.length`), and that case is not modelled: the model reads it as "" and answers as the source does for an empty columnId.
- Kanban.AddColumnOutcome: a `null` or absent title is modelled as "". The source stores the value as given (resolvers.ts:37-40, route.ts:64-67), so a `null` title is written as `null` and an absent one is dropped from the written JSON. The same holds for the content of Kanban.AddTaskOutcome (resolvers.ts:140-144, route.ts:137-141).
- Ids of number type (the shared types allow `string | number`) are not modelled. swapColumns and moveTask compare `id.toString()`, and the other mutations compare with `===`. Every id here is a string, so the two comparisons coincide.
- Resolvers.Board.MoveTask: the JavaScript aliasing is modelled only for this method. The active task object is shared with its slot and, when both ids are the same, with the over task. The method reproduces that effect explicitly; object identity in general is not modelled.
- Resolvers.Board.AddColumn: the methods state only the outcome they reach, not that the board stays well-formed. Preservation of `WellFormed` is proved about the outcome functions instead (the `...KeepsWellFormed` lemmas). The same holds for every other method of both `Board` classes.
