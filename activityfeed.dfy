/** The activity feed (src/components/ActivityFeed.tsx): one item per
    activity, in the order given, each naming its user and the resource the
    activity touched. */
module ActivityFeed {
  import opened Collections
  import opened MockData
  import Text

  /** `getResourceName`. `document?.title || 'Unknown document'` falls back
      both when the lookup fails and when the title is empty. */
  function ResourceName(store: Store, a: Activity): (name: string)
    ensures name != ""
    ensures a.resourceType == CommentResource ==> name == "Unknown resource"
  {
    match a.resourceType
    case DocumentResource =>
      (match GetDocumentById(store, a.resourceId)
       case Some(d) => if d.title != "" then d.title else "Unknown document"
       case None => "Unknown document")
    case ProjectResource =>
      (match GetProjectById(store, a.resourceId)
       case Some(p) => if p.name != "" then p.name else "Unknown project"
       case None => "Unknown project")
    case CommentResource => "Unknown resource"
  }

  /** A document activity names the first document with that id, or falls
      back when there is none or its title is empty. */
  lemma DocumentResourceName(store: Store, a: Activity, i: nat)
    requires a.resourceType == DocumentResource
    requires i < |store.documents| && store.documents[i].id == a.resourceId
    requires forall j :: 0 <= j < i ==> store.documents[j].id != a.resourceId
    ensures ResourceName(store, a) == if store.documents[i].title == "" then "Unknown document"
                                      else store.documents[i].title
  {
    DocumentLookupIsFirstMatch(store, a.resourceId, i);
  }

  /** A project activity names the first project with that id, or falls back
      when there is none or its name is empty. */
  lemma ProjectResourceName(store: Store, a: Activity, i: nat)
    requires a.resourceType == ProjectResource
    requires i < |store.projects| && store.projects[i].id == a.resourceId
    requires forall j :: 0 <= j < i ==> store.projects[j].id != a.resourceId
    ensures ResourceName(store, a) == if store.projects[i].name == "" then "Unknown project"
                                      else store.projects[i].name
  {
    ProjectLookupIsFirstMatch(store, a.resourceId, i);
  }

  /** A resource id that nothing carries gives the fallback of its type. */
  lemma MissingResourceName(store: Store, a: Activity)
    requires a.resourceType == DocumentResource ==>
               forall i :: 0 <= i < |store.documents| ==> store.documents[i].id != a.resourceId
    requires a.resourceType == ProjectResource ==>
               forall i :: 0 <= i < |store.projects| ==> store.projects[i].id != a.resourceId
    ensures ResourceName(store, a) == match a.resourceType
                                      case DocumentResource => "Unknown document"
                                      case ProjectResource => "Unknown project"
                                      case CommentResource => "Unknown resource"
  {
  }

  /** One rendered feed item. `user?.name` renders as nothing for an unknown
      user, and so does the avatar fallback. */
  datatype FeedItem = FeedItem(activityId: string, userName: string, initials: string, action: string,
                               resource: string, timestamp: int)

  function ItemFor(store: Store, a: Activity): (item: FeedItem)
    ensures item.activityId == a.id && item.action == a.action && item.timestamp == a.timestamp
    ensures item.resource == ResourceName(store, a)
    ensures GetUserById(store, a.userId).None? ==> item.userName == "" && item.initials == ""
    ensures GetUserById(store, a.userId).Some? ==>
              item.userName == GetUserById(store, a.userId).value.name &&
              item.initials == Text.Initials(item.userName)
  {
    var name := match GetUserById(store, a.userId) case Some(u) => u.name case None => "";
    var initials := match GetUserById(store, a.userId) case Some(u) => Text.Initials(u.name) case None => "";
    FeedItem(a.id, name, initials, a.action, ResourceName(store, a), a.timestamp)
  }

  /** `activities.map(...)`: one item per activity, in the given order. */
  function Feed(store: Store, activities: seq<Activity>): (items: seq<FeedItem>)
    ensures |items| == |activities|
    ensures forall i :: 0 <= i < |items| ==> items[i].activityId == activities[i].id
    ensures forall i :: 0 <= i < |items| ==> items[i] == ItemFor(store, activities[i])
  {
    seq(|activities|, i requires 0 <= i < |activities| => ItemFor(store, activities[i]))
  }

  /** The feed of a concatenation is the concatenation of the feeds, so the
      feed neither reorders nor merges items. */
  lemma FeedAppend(store: Store, a: seq<Activity>, b: seq<Activity>)
    ensures Feed(store, a + b) == Feed(store, a) + Feed(store, b)
  {
  }

  /** Over the initial, empty store every item shows no user and the
      fallback resource name of its type. */
  lemma InitialFeedFallsBack(activities: seq<Activity>, i: nat)
    requires i < |activities|
    ensures Feed(InitialStore, activities)[i].userName == ""
    ensures Feed(InitialStore, activities)[i].resource in ["Unknown document", "Unknown project", "Unknown resource"]
  {
    MissingResourceName(InitialStore, activities[i]);
  }
}
