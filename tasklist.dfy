/** The task list (src/components/TaskList.tsx): tasks grouped into To Do,
    In Progress and Done, a colour per status, a placeholder for an empty
    group, and the per-task menu. */
module TaskList {
  import opened Collections
  import opened Tasks

  const GreyBadge := "bg-gray-100 text-gray-800"

  /** `getStatusColor`. */
  function StatusColor(st: Status): (cls: string)
  {
    match st
    case Todo => "bg-blue-100 text-blue-800"
    case InProgress => "bg-amber-100 text-amber-800"
    case Done => "bg-green-100 text-green-800"
    case Other(_) => GreyBadge
  }

  /** The three known statuses have three different colours, none of them
      grey; every other status is grey. */
  lemma StatusColorsDistinct(st: Status)
    ensures StatusColor(st) == GreyBadge <==> st.Other?
    ensures StatusColor(Todo) != StatusColor(InProgress)
    ensures StatusColor(Todo) != StatusColor(Done)
    ensures StatusColor(InProgress) != StatusColor(Done)
  {
  }

  /** `tasksByStatus`. */
  datatype Groups = Groups(todo: seq<Task>, inProgress: seq<Task>, done: seq<Task>)

  function TasksByStatus(tasks: seq<Task>): (g: Groups)
    ensures forall t :: t in g.todo <==> t in tasks && t.status == Todo
    ensures forall t :: t in g.inProgress <==> t in tasks && t.status == InProgress
    ensures forall t :: t in g.done <==> t in tasks && t.status == Done
  {
    Groups(TasksWithStatus(tasks, Todo), TasksWithStatus(tasks, InProgress), TasksWithStatus(tasks, Done))
  }

  function IsOther(t: Task): bool
  {
    t.status.Other?
  }

  /** The tasks shown in none of the groups. */
  function Ungrouped(tasks: seq<Task>): seq<Task>
  {
    Filter(tasks, IsOther)
  }

  /** The groups and the ungrouped tasks together account for every task
      exactly once: as multisets they add up to the input. */
  lemma {:induction false} GroupsPartitionTasks(tasks: seq<Task>)
    ensures var g := TasksByStatus(tasks);
      multiset(g.todo) + multiset(g.inProgress) + multiset(g.done) + multiset(Ungrouped(tasks))
      == multiset(tasks)
  {
    var g := TasksByStatus(tasks);
    var whole := multiset(g.todo) + multiset(g.inProgress) + multiset(g.done) + multiset(Ungrouped(tasks));
    forall t ensures whole[t] == multiset(tasks)[t] {
      GroupsCountTask(tasks, t);
    }
    assert whole == multiset(tasks);
  }

  /** One task's multiplicity: exactly one of the four filters keeps it. */
  lemma {:induction false} GroupsCountTask(tasks: seq<Task>, t: Task)
    ensures var g := TasksByStatus(tasks);
      multiset(g.todo)[t] + multiset(g.inProgress)[t] + multiset(g.done)[t] + multiset(Ungrouped(tasks))[t]
      == multiset(tasks)[t]
  {
    FilterMultiset(tasks, WithStatus(Todo), t);
    FilterMultiset(tasks, WithStatus(InProgress), t);
    FilterMultiset(tasks, WithStatus(Done), t);
    FilterMultiset(tasks, IsOther, t);
  }

  /** Each group keeps the input order: grouping splits along any split of
      the input. */
  lemma GroupsKeepOrder(a: seq<Task>, b: seq<Task>)
    ensures TasksByStatus(a + b).todo == TasksByStatus(a).todo + TasksByStatus(b).todo
    ensures TasksByStatus(a + b).inProgress == TasksByStatus(a).inProgress + TasksByStatus(b).inProgress
    ensures TasksByStatus(a + b).done == TasksByStatus(a).done + TasksByStatus(b).done
  {
    FilterAppend(a, b, WithStatus(Todo));
    FilterAppend(a, b, WithStatus(InProgress));
    FilterAppend(a, b, WithStatus(Done));
  }

  /** One rendered group: its heading, its items, and the placeholder text
      drawn when it has none. */
  datatype Section = Section(heading: string, items: seq<Task>, placeholder: Option<string>)

  function GroupSection(heading: string, items: seq<Task>, emptyText: string): Section
  {
    Section(heading, items, if |items| == 0 then Some(emptyText) else None)
  }

  /** The three sections of the list, in page order. */
  function Sections(tasks: seq<Task>): (sections: seq<Section>)
    ensures |sections| == 3
    ensures sections[0].placeholder.Some? <==> forall t :: t in tasks ==> t.status != Todo
    ensures sections[1].placeholder.Some? <==> forall t :: t in tasks ==> t.status != InProgress
    ensures sections[2].placeholder.Some? <==> forall t :: t in tasks ==> t.status != Done
  {
    var g := TasksByStatus(tasks);
    NoneWithStatus(tasks, Todo);
    NoneWithStatus(tasks, InProgress);
    NoneWithStatus(tasks, Done);
    [ GroupSection("To Do", g.todo, "No tasks to do"),
      GroupSection("In Progress", g.inProgress, "No tasks in progress"),
      GroupSection("Done", g.done, "No completed tasks") ]
  }

  /** The list's menu for one task. */
  function TaskMenu(task: Task): seq<MoveItem>
  {
    MoveMenu(task, "Mark as Done")
  }
}
