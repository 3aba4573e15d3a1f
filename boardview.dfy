/** The board view (src/components/BoardView.tsx): three fixed columns, each
    showing the tasks in its status, drag-and-drop between columns, and the
    per-task menu. */
module BoardView {
  import opened Collections
  import opened Tasks
  import TaskList

  datatype Column = Column(id: CanonicalStatus, title: string)

  /** The fixed `columns`. */
  const Columns: seq<Column> := [Column(Todo, "To Do"), Column(InProgress, "In Progress"), Column(Done, "Done")]

  /** `tasks.filter(task => task.status === column.id)`. */
  function ColumnTasks(tasks: seq<Task>, column: Column): (r: seq<Task>)
    ensures forall t :: t in r <==> t in tasks && t.status == column.id
  {
    TasksWithStatus(tasks, column.id)
  }

  /** The columns are To Do, In Progress and Done, in that order, and they
      hold exactly the list view's groups. */
  lemma BoardAgreesWithList(tasks: seq<Task>)
    ensures |Columns| == 3
    ensures Columns[0].id == Todo && Columns[1].id == InProgress && Columns[2].id == Done
    ensures ColumnTasks(tasks, Columns[0]) == TaskList.TasksByStatus(tasks).todo
    ensures ColumnTasks(tasks, Columns[1]) == TaskList.TasksByStatus(tasks).inProgress
    ensures ColumnTasks(tasks, Columns[2]) == TaskList.TasksByStatus(tasks).done
  {
  }

  /** "No tasks" is drawn under a column exactly when no task has its status. */
  function ShowsNoTasks(tasks: seq<Task>, column: Column): (empty: bool)
    ensures empty <==> forall t :: t in tasks ==> t.status != column.id
  {
    var r := ColumnTasks(tasks, column);
    assert r != [] ==> r[0] in r;
    |r| == 0
  }

  /** The drag carrier (`dataTransfer`) as a key-to-string store. */
  type DragData = map<string, string>

  const TaskIdKey := "taskId"

  /** `handleDragStart`: record the task's id on the carrier. */
  function DragStart(data: DragData, taskId: string): DragData
  {
    data[TaskIdKey := taskId]
  }

  /** `getData` gives the empty string for a key never set. */
  function GetData(data: DragData, key: string): (v: string)
    ensures key in data ==> v == data[key]
    ensures key !in data ==> v == ""
  {
    if key in data then data[key] else ""
  }

  /** `handleDrop`: send whatever id the carrier holds, with the column's id. */
  function Drop(data: DragData, column: Column): TaskEvent
  {
    UpdateStatus(GetData(data, TaskIdKey), StatusName(column.id))
  }

  /** Dropping after a drag start sends the dragged task's id and the target
      column's status, whatever the carrier held before. */
  lemma DropSendsDraggedTask(data: DragData, taskId: string, column: Column)
    ensures Drop(DragStart(data, taskId), column) == UpdateStatus(taskId, StatusName(column.id))
  {
  }

  /** A drop with nothing dragged still calls `onUpdateStatus`, with an empty
      task id. */
  lemma DropWithoutDrag(column: Column)
    ensures Drop(map[], column) == UpdateStatus("", StatusName(column.id))
  {
  }

  /** `{task.description && <p>…</p>}`: the description paragraph is drawn
      only for a non-empty description. */
  function ShowsDescription(task: Task): bool
  {
    task.description != ""
  }

  /** The description paragraphs drawn in a column are exactly the described
      tasks of the column's status, in task order; nothing else in the column
      shows a description. */
  lemma {:induction false} ColumnDescriptions(tasks: seq<Task>, column: Column)
    ensures Filter(ColumnTasks(tasks, column), ShowsDescription)
            == TasksWithStatus(Filter(tasks, ShowsDescription), column.id)
    ensures forall t :: t in Filter(ColumnTasks(tasks, column), ShowsDescription) <==>
              t in tasks && t.status == column.id && t.description != ""
  {
    FilterCommute(tasks, WithStatus(column.id), ShowsDescription);
    var r := Filter(ColumnTasks(tasks, column), ShowsDescription);
    forall t ensures t in r <==> t in tasks && t.status == column.id && t.description != "" {
      if t in r {
        var i :| 0 <= i < |r| && r[i] == t;
      }
      if t in tasks && t.status == column.id && t.description != "" {
        assert t in ColumnTasks(tasks, column);
        var j :| 0 <= j < |ColumnTasks(tasks, column)| && ColumnTasks(tasks, column)[j] == t;
      }
    }
  }

  /** The board's menu for one task. */
  function TaskMenu(task: Task): seq<MoveItem>
  {
    MoveMenu(task, "Move to Done")
  }
}
