/** What TaskList and BoardView share: the task record, its status, the
    events the components send to their parent, and the per-task menu.
    TaskType itself lives in src/types/Task.ts, which is not part of this
    model; its fields are the ones the two components read. */
module Tasks {
  import opened Collections

  /** A task status. The components compare the status string with 'todo',
      'in-progress' and 'done'; any other string is `Other`. */
  datatype Status = Todo | InProgress | Done | Other(name: string)

  /** The status string. */
  function StatusName(st: Status): string
  {
    match st
    case Todo => "todo"
    case InProgress => "in-progress"
    case Done => "done"
    case Other(name) => name
  }

  /** Read a status string. */
  function ParseStatus(s: string): CanonicalStatus
  {
    if s == "todo" then Todo
    else if s == "in-progress" then InProgress
    else if s == "done" then Done
    else Other(s)
  }

  /** `Other` never spells one of the three known statuses. */
  ghost predicate Canonical(st: Status)
  {
    st.Other? ==> st.name != "todo" && st.name != "in-progress" && st.name != "done"
  }

  /** The statuses a status string can be read as: exactly one value per
      string. */
  type CanonicalStatus = st: Status | Canonical(st) witness Todo

  /** Reading a string and writing it back gives the same string, and the
      status read is canonical. */
  lemma ParseThenName(s: string)
    ensures StatusName(ParseStatus(s)) == s
    ensures Canonical(ParseStatus(s))
  {
  }

  /** Writing a canonical status and reading it back gives the same status. */
  lemma NameThenParse(st: Status)
    requires Canonical(st)
    ensures ParseStatus(StatusName(st)) == st
  {
  }

  /** For canonical statuses, comparing strings is comparing statuses. */
  lemma NameEqualityIsStatusEquality(a: Status, b: Status)
    requires Canonical(a) && Canonical(b)
    ensures a == b <==> StatusName(a) == StatusName(b)
  {
    if StatusName(a) == StatusName(b) {
      NameThenParse(a);
      NameThenParse(b);
    }
  }

  datatype Task = Task(id: string, title: string, description: string, assignee: string, status: CanonicalStatus)

  /** What the components hand to `onUpdateStatus` and `onDeleteTask`. */
  datatype TaskEvent = UpdateStatus(taskId: string, newStatus: string) | DeleteTask(taskId: string)

  function WithStatus(st: Status): Task -> bool
  {
    (t: Task) => t.status == st
  }

  /** `tasks.filter(task => task.status === st)`. */
  function TasksWithStatus(tasks: seq<Task>, st: Status): (r: seq<Task>)
    ensures forall i :: 0 <= i < |r| ==> r[i].status == st && r[i] in tasks
    ensures forall i :: 0 <= i < |tasks| && tasks[i].status == st ==> tasks[i] in r
  {
    Filter(tasks, WithStatus(st))
  }

  /** The filter is empty exactly when no task has the status. */
  lemma NoneWithStatus(tasks: seq<Task>, st: Status)
    ensures TasksWithStatus(tasks, st) == [] <==> forall t :: t in tasks ==> t.status != st
  {
    var r := TasksWithStatus(tasks, st);
    assert r != [] ==> r[0] in r;
  }

  /** One "Move to ..." entry of a task's menu. */
  datatype MoveItem = MoveItem(caption: string, target: CanonicalStatus, disabled: bool)

  /** The three move entries; the last label differs between the list
      ("Mark as Done") and the board ("Move to Done"). */
  function MoveMenu(task: Task, doneLabel: string): (items: seq<MoveItem>)
    ensures |items| == 3
    ensures items[0].target == Todo && items[1].target == InProgress && items[2].target == Done
    ensures forall i :: 0 <= i < 3 ==> (items[i].disabled <==> items[i].target == task.status)
  {
    [ MoveItem("Move to To Do", Todo, task.status == Todo),
      MoveItem("Move to In Progress", InProgress, task.status == InProgress),
      MoveItem(doneLabel, Done, task.status == Done) ]
  }

  /** Clicking a move entry: a disabled entry does nothing, an enabled one
      sends the task's id and the target status string. */
  function ClickMove(task: Task, item: MoveItem): (e: Option<TaskEvent>)
    ensures e.None? <==> item.disabled
    ensures e.Some? ==> e.value == UpdateStatus(task.id, StatusName(item.target))
  {
    if item.disabled then None else Some(UpdateStatus(task.id, StatusName(item.target)))
  }

  /** Clicking Delete sends the task's own id. */
  function ClickDelete(task: Task): (e: TaskEvent)
    ensures e.DeleteTask? && e.taskId == task.id
  {
    DeleteTask(task.id)
  }

  /** A task in a known status has exactly its own entry disabled; a task in
      any other status has every entry enabled. */
  lemma MoveMenuDisablesCurrent(task: Task, doneLabel: string)
    ensures var items := MoveMenu(task, doneLabel);
      (task.status.Other? ==> forall i :: 0 <= i < 3 ==> !items[i].disabled) &&
      (!task.status.Other? ==> exists i :: 0 <= i < 3 && items[i].disabled &&
                                forall j :: 0 <= j < 3 && j != i ==> !items[j].disabled)
  {
    var items := MoveMenu(task, doneLabel);
    if !task.status.Other? {
      var i := if task.status == Todo then 0 else if task.status == InProgress then 1 else 2;
      assert items[i].disabled;
    }
  }

  /** No enabled entry ever asks to move a task to the status it already
      has: the string it sends differs from the task's own status string. */
  lemma {:induction false} MoveNeverToOwnStatus(task: Task, doneLabel: string)
    ensures forall i :: 0 <= i < 3 ==>
      var e := ClickMove(task, MoveMenu(task, doneLabel)[i]);
      e.Some? ==> e.value.newStatus != StatusName(task.status)
  {
    var items := MoveMenu(task, doneLabel);
    EnabledMoveChangesStatus(task, items[0]);
    EnabledMoveChangesStatus(task, items[1]);
    EnabledMoveChangesStatus(task, items[2]);
  }

  /** An entry that is enabled exactly when it targets another status sends
      a string other than the task's own. */
  lemma EnabledMoveChangesStatus(task: Task, item: MoveItem)
    requires item.disabled <==> item.target == task.status
    ensures ClickMove(task, item).Some? ==> ClickMove(task, item).value.newStatus != StatusName(task.status)
  {
    NameEqualityIsStatusEquality(item.target, task.status);
  }
}
