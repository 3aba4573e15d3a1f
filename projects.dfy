/** The Projects page (src/pages/Projects.tsx): a fixed list of five
    projects, a status badge colour, the Active and Completed tabs, and the
    grid/list switch of the All tab. */
module Projects {
  import opened Collections
  import Text

  /** A project status. The page compares the status string with
      'Completed', 'In Progress' and 'Just Started'; any other string is
      `OtherStatus`. */
  datatype ProjectStatus = Completed | InProgress | JustStarted | OtherStatus(name: string)

  function StatusName(st: ProjectStatus): string
  {
    match st
    case Completed => "Completed"
    case InProgress => "In Progress"
    case JustStarted => "Just Started"
    case OtherStatus(name) => name
  }

  /** `OtherStatus` never spells one of the three known statuses. */
  ghost predicate Canonical(st: ProjectStatus)
  {
    st.OtherStatus? ==> st.name != "Completed" && st.name != "In Progress" && st.name != "Just Started"
  }

  /** The statuses a status string can be read as: exactly one value per
      string. */
  type CanonicalStatus = st: ProjectStatus | Canonical(st) witness Completed

  function ParseStatus(s: string): CanonicalStatus
  {
    if s == "Completed" then Completed
    else if s == "In Progress" then InProgress
    else if s == "Just Started" then JustStarted
    else OtherStatus(s)
  }

  /** Reading a status string and writing it back is the identity, so the
      comparisons on the datatype are the page's string comparisons. */
  lemma ParseThenName(s: string)
    ensures StatusName(ParseStatus(s)) == s
    ensures ParseStatus(s) == Completed <==> s == "Completed"
  {
  }

  /** Writing a canonical status and reading it back gives the same status,
      so for those statuses comparing strings is comparing statuses. */
  lemma NameThenParse(st: CanonicalStatus)
    ensures ParseStatus(StatusName(st)) == st
    ensures st == Completed <==> StatusName(st) == "Completed"
  {
  }

  const GreyBadge := "bg-gray-100 text-gray-800 border-gray-200"

  /** `getStatusColor`. */
  function StatusColor(st: ProjectStatus): string
  {
    match st
    case Completed => "bg-green-100 text-green-800 border-green-200"
    case InProgress => "bg-blue-100 text-blue-800 border-blue-200"
    case JustStarted => "bg-purple-100 text-purple-800 border-purple-200"
    case OtherStatus(_) => GreyBadge
  }

  /** The three known statuses have distinct colours, none of them grey;
      every other status is grey. */
  lemma StatusColorsDistinct(st: ProjectStatus)
    ensures StatusColor(st) == GreyBadge <==> st.OtherStatus?
    ensures StatusColor(Completed) != StatusColor(InProgress)
    ensures StatusColor(Completed) != StatusColor(JustStarted)
    ensures StatusColor(InProgress) != StatusColor(JustStarted)
  {
  }

  datatype Project = Project(id: int, name: string, progress: int, status: CanonicalStatus,
                             memberNames: seq<string>, completedTasks: int, totalTasks: int)

  /** The page's constant `projects` array (descriptions and due dates left
      out). */
  const PageProjects: seq<Project> := [
    Project(1, "Website Redesign", 75, InProgress, ["Alex J", "Sarah M", "David L"], 18, 24),
    Project(2, "Mobile App Development", 45, InProgress, ["Alex J", "Emily C"], 12, 32),
    Project(3, "Marketing Campaign", 100, Completed, ["Sarah M", "Michael B"], 15, 15),
    Project(4, "CRM Integration", 20, InProgress, ["David L", "Michael B"], 5, 20),
    Project(5, "Product Launch", 10, JustStarted, ["Alex J", "Sarah M", "David L", "Emily C"], 2, 18)
  ]

  function IsActive(p: Project): bool { p.status != Completed }
  function IsCompleted(p: Project): bool { p.status == Completed }

  /** The Active tab: `projects.filter(p => p.status !== 'Completed')`. */
  function ActiveProjects(projects: seq<Project>): (r: seq<Project>)
    ensures forall i :: 0 <= i < |r| ==> r[i].status != Completed && r[i] in projects
    ensures forall i :: 0 <= i < |projects| && projects[i].status != Completed ==> projects[i] in r
  {
    Filter(projects, IsActive)
  }

  /** The Completed tab: `projects.filter(p => p.status === 'Completed')`. */
  function CompletedProjects(projects: seq<Project>): (r: seq<Project>)
    ensures forall i :: 0 <= i < |r| ==> r[i].status == Completed && r[i] in projects
    ensures forall i :: 0 <= i < |projects| && projects[i].status == Completed ==> projects[i] in r
  {
    Filter(projects, IsCompleted)
  }

  /** The two tabs partition the projects: together they hold every project
      exactly as often as the list does, and no project is in both. */
  lemma {:induction false} TabsPartitionProjects(projects: seq<Project>)
    ensures multiset(ActiveProjects(projects)) + multiset(CompletedProjects(projects)) == multiset(projects)
    ensures |ActiveProjects(projects)| + |CompletedProjects(projects)| == |projects|
    ensures forall p :: p in ActiveProjects(projects) ==> p !in CompletedProjects(projects)
  {
    var a := ActiveProjects(projects);
    var c := CompletedProjects(projects);
    forall p ensures (multiset(a) + multiset(c))[p] == multiset(projects)[p] {
      TabsCountProject(projects, p);
    }
    assert multiset(a) + multiset(c) == multiset(projects);
    assert |multiset(a) + multiset(c)| == |multiset(projects)|;
    TabsDisjoint(projects);
  }

  /** One project's multiplicity: exactly one of the two filters keeps it. */
  lemma {:induction false} TabsCountProject(projects: seq<Project>, p: Project)
    ensures multiset(ActiveProjects(projects))[p] + multiset(CompletedProjects(projects))[p]
            == multiset(projects)[p]
  {
    FilterMultiset(projects, IsActive, p);
    FilterMultiset(projects, IsCompleted, p);
  }

  /** No project is on both tabs. */
  lemma {:induction false} TabsDisjoint(projects: seq<Project>)
    ensures forall p :: p in ActiveProjects(projects) ==> p !in CompletedProjects(projects)
  {
    var a := ActiveProjects(projects);
    var c := CompletedProjects(projects);
    forall q | q in c ensures q.status == Completed {
      var j :| 0 <= j < |c| && c[j] == q;
    }
    forall p | p in a ensures p !in c {
      var i :| 0 <= i < |a| && a[i] == p;
      assert p.status != Completed;
    }
  }

  /** Both tabs keep the page order: they split along any split of the list. */
  lemma TabsKeepOrder(a: seq<Project>, b: seq<Project>)
    ensures ActiveProjects(a + b) == ActiveProjects(a) + ActiveProjects(b)
    ensures CompletedProjects(a + b) == CompletedProjects(a) + CompletedProjects(b)
  {
    FilterAppend(a, b, IsActive);
    FilterAppend(a, b, IsCompleted);
  }

  /** On the page's own data: four active projects and one completed. */
  lemma {:induction false} PageTabs()
    ensures CompletedProjects(PageProjects) == [PageProjects[2]]
    ensures |ActiveProjects(PageProjects)| == 4
  {
    var p := PageProjects;
    assert p[4..][1..] == [];
    assert Filter(p[4..], IsCompleted) == [];
    assert p[3..][1..] == p[4..];
    assert Filter(p[3..], IsCompleted) == [];
    assert p[2..][1..] == p[3..];
    assert Filter(p[2..], IsCompleted) == [p[2]];
    assert p[1..][1..] == p[2..];
    assert Filter(p[1..], IsCompleted) == [p[2]];
    assert Filter(p, IsCompleted) == [p[2]];
    TabsPartitionProjects(p);
  }

  /** The avatar fallback of a member on a card. */
  function MemberInitials(p: Project): (initials: seq<string>)
    ensures |initials| == |p.memberNames|
    ensures forall i :: 0 <= i < |initials| ==> initials[i] == Text.Initials(p.memberNames[i])
  {
    seq(|p.memberNames|, i requires 0 <= i < |p.memberNames| => Text.Initials(p.memberNames[i]))
  }

  datatype ViewMode = Grid | List

  /** What the All tab draws. */
  datatype Layout = Cards | Table

  function AllTabLayout(mode: ViewMode): (l: Layout)
    ensures l == Cards <==> mode == Grid
  {
    if mode == Grid then Cards else Table
  }

  /** A view button is drawn with `bg-muted` when its mode is the current one. */
  function Highlighted(button: ViewMode, mode: ViewMode): bool
  {
    button == mode
  }

  /** Exactly one of the two buttons is highlighted, and it is the one whose
      layout the All tab shows. */
  lemma OneButtonHighlighted(mode: ViewMode)
    ensures Highlighted(Grid, mode) != Highlighted(List, mode)
    ensures Highlighted(Grid, mode) <==> AllTabLayout(mode) == Cards
  {
  }

  class ProjectsPage {
    /** The `viewMode` state. */
    var viewMode: ViewMode

    constructor ()
      ensures viewMode == Grid
    {
      viewMode := Grid;
    }

    /** A view button's `onClick`: it sets the mode outright, so pressing
        the same button again changes nothing. */
    method SetViewMode(mode: ViewMode)
      modifies this
      ensures viewMode == mode
    {
      viewMode := mode;
    }
  }

  /** Pressing a view button twice leaves the page as one press does. */
  method PressTwice(page: ProjectsPage, mode: ViewMode)
    modifies page
    ensures page.viewMode == mode
    ensures Highlighted(mode, page.viewMode)
  {
    page.SetViewMode(mode);
    page.SetViewMode(mode);
  }
}
