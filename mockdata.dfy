/** The in-memory data layer (src/data/mockData.ts): four collections, which
    start empty, and the lookup, recent-activity and per-project helpers over
    them. The collections are never mutated, so they are one `Store` value;
    timestamps are the milliseconds `new Date(...).getTime()` yields. */
module MockData {
  import opened Collections

  datatype User = User(id: string, name: string, avatar: string, role: string)

  datatype DocumentKind = Doc | Sheet | Image | Pdf

  datatype Document = Document(id: string, title: string, kind: DocumentKind, createdAt: string,
                               updatedAt: string, createdBy: string, projectId: string)

  datatype Project = Project(id: string, name: string, description: string, progress: int,
                             dueDate: string, teamMembers: seq<string>, documentsCount: int)

  datatype ResourceType = DocumentResource | ProjectResource | CommentResource

  datatype Activity = Activity(id: string, userId: string, action: string, resourceType: ResourceType,
                               resourceId: string, timestamp: int)

  datatype Store = Store(users: seq<User>, projects: seq<Project>, documents: seq<Document>,
                         activities: seq<Activity>)

  /** The module's initial, empty arrays. */
  const InitialStore: Store := Store([], [], [], [])

  /** The default `limit` of `getRecentActivities`. */
  const DefaultLimit: int := 10

  function UserHasId(id: string): User -> bool { (u: User) => u.id == id }
  function ProjectHasId(id: string): Project -> bool { (p: Project) => p.id == id }
  function DocumentHasId(id: string): Document -> bool { (d: Document) => d.id == id }

  /** `getUserById`: the first user with that id, if any. */
  function GetUserById(store: Store, id: string): (r: Option<User>)
    ensures r.None? <==> forall i :: 0 <= i < |store.users| ==> store.users[i].id != id
    ensures r.Some? ==> exists i :: 0 <= i < |store.users| && store.users[i] == r.value && r.value.id == id &&
                                    forall j :: 0 <= j < i ==> store.users[j].id != id
  {
    Find(store.users, UserHasId(id))
  }

  /** `getProjectById`: the first project with that id, if any. */
  function GetProjectById(store: Store, id: string): (r: Option<Project>)
    ensures r.None? <==> forall i :: 0 <= i < |store.projects| ==> store.projects[i].id != id
    ensures r.Some? ==> exists i :: 0 <= i < |store.projects| && store.projects[i] == r.value && r.value.id == id &&
                                    forall j :: 0 <= j < i ==> store.projects[j].id != id
  {
    Find(store.projects, ProjectHasId(id))
  }

  /** `getDocumentById`: the first document with that id, if any. */
  function GetDocumentById(store: Store, id: string): (r: Option<Document>)
    ensures r.None? <==> forall i :: 0 <= i < |store.documents| ==> store.documents[i].id != id
    ensures r.Some? ==> exists i :: 0 <= i < |store.documents| && store.documents[i] == r.value && r.value.id == id &&
                                    forall j :: 0 <= j < i ==> store.documents[j].id != id
  {
    Find(store.documents, DocumentHasId(id))
  }

  /** Each lookup picks out the element at the first index carrying the id. */
  lemma UserLookupIsFirstMatch(store: Store, id: string, i: nat)
    requires i < |store.users| && store.users[i].id == id
    requires forall j :: 0 <= j < i ==> store.users[j].id != id
    ensures GetUserById(store, id) == Some(store.users[i])
  {
    var u := GetUserById(store, id);
    var k :| 0 <= k < |store.users| && store.users[k] == u.value && u.value.id == id &&
             forall j :: 0 <= j < k ==> store.users[j].id != id;
    assert !(k < i) && !(i < k);
  }

  lemma ProjectLookupIsFirstMatch(store: Store, id: string, i: nat)
    requires i < |store.projects| && store.projects[i].id == id
    requires forall j :: 0 <= j < i ==> store.projects[j].id != id
    ensures GetProjectById(store, id) == Some(store.projects[i])
  {
    var p := GetProjectById(store, id);
    var k :| 0 <= k < |store.projects| && store.projects[k] == p.value && p.value.id == id &&
             forall j :: 0 <= j < k ==> store.projects[j].id != id;
    assert !(k < i) && !(i < k);
  }

  lemma DocumentLookupIsFirstMatch(store: Store, id: string, i: nat)
    requires i < |store.documents| && store.documents[i].id == id
    requires forall j :: 0 <= j < i ==> store.documents[j].id != id
    ensures GetDocumentById(store, id) == Some(store.documents[i])
  {
    var d := GetDocumentById(store, id);
    var k :| 0 <= k < |store.documents| && store.documents[k] == d.value && d.value.id == id &&
             forall j :: 0 <= j < k ==> store.documents[j].id != id;
    assert !(k < i) && !(i < k);
  }

  /** With the initial, empty collections, every lookup finds nothing. */
  lemma InitialLookupsFindNothing(id: string)
    ensures GetUserById(InitialStore, id).None?
    ensures GetProjectById(InitialStore, id).None?
    ensures GetDocumentById(InitialStore, id).None?
  {
  }

  function TimestampOf(a: Activity): int
  {
    a.timestamp
  }

  /** `getRecentActivities(limit)`: a copy of the activities sorted newest
      first, cut to `limit`. */
  function GetRecentActivities(store: Store, limit: int): (r: seq<Activity>)
    ensures |r| == SliceEnd(limit, |store.activities|)
    ensures limit >= 0 ==> |r| == if limit < |store.activities| then limit else |store.activities|
    ensures NonIncreasing(r, TimestampOf)
    ensures multiset(r) <= multiset(store.activities)
  {
    var sorted := SortDescending(store.activities, TimestampOf);
    var r := SliceTo(sorted, limit);
    assert sorted == r + sorted[|r|..];
    r
  }

  /** What the cut drops is never newer than what it keeps. */
  lemma RecentActivitiesAreNewest(store: Store, limit: int, kept: Activity, dropped: Activity)
    requires kept in GetRecentActivities(store, limit)
    requires dropped in multiset(store.activities) - multiset(GetRecentActivities(store, limit))
    ensures dropped.timestamp <= kept.timestamp
  {
    var sorted := SortDescending(store.activities, TimestampOf);
    var n := SliceEnd(limit, |sorted|);
    assert GetRecentActivities(store, limit) == sorted[..n];
    PrefixHoldsLargest(sorted, TimestampOf, n, kept, dropped);
  }

  /** Activities with equal timestamps keep their original order, and
      with a limit of at least the activity count none is dropped. */
  lemma RecentActivitiesStable(store: Store, limit: int, t: int)
    requires limit >= |store.activities|
    ensures multiset(GetRecentActivities(store, limit)) == multiset(store.activities)
    ensures Filter(GetRecentActivities(store, limit), HasKey(TimestampOf, t))
         == Filter(store.activities, HasKey(TimestampOf, t))
  {
    var sorted := SortDescending(store.activities, TimestampOf);
    assert GetRecentActivities(store, limit) == sorted;
    SortStable(store.activities, TimestampOf, t);
  }

  /** With the initial store there is no recent activity. */
  lemma InitialRecentActivitiesEmpty()
    ensures GetRecentActivities(InitialStore, DefaultLimit) == []
  {
  }

  function InProject(projectId: string): Document -> bool { (d: Document) => d.projectId == projectId }

  /** `getDocumentsByProjectId`. */
  function GetDocumentsByProjectId(store: Store, projectId: string): (r: seq<Document>)
    ensures forall i :: 0 <= i < |r| ==> r[i].projectId == projectId && r[i] in store.documents
    ensures forall i :: 0 <= i < |store.documents| && store.documents[i].projectId == projectId ==>
              store.documents[i] in r
  {
    Filter(store.documents, InProject(projectId))
  }

  /** The per-project list keeps the collection's order and its duplicates:
      it splits along any split of the documents, and it holds each document
      of the project as often as the collection does. */
  lemma ProjectDocumentsInOrder(store: Store, a: seq<Document>, b: seq<Document>, projectId: string, d: Document)
    requires store.documents == a + b
    ensures GetDocumentsByProjectId(store, projectId)
         == GetDocumentsByProjectId(store.(documents := a), projectId)
          + GetDocumentsByProjectId(store.(documents := b), projectId)
    ensures multiset(GetDocumentsByProjectId(store, projectId))[d]
         == if d.projectId == projectId then multiset(store.documents)[d] else 0
  {
    FilterAppend(a, b, InProject(projectId));
    FilterMultiset(store.documents, InProject(projectId), d);
  }
}
