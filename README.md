# ProgressHub view logic in Dafny

ProgressHub is a project-tracking dashboard written in React and TypeScript.
Its pages are mostly markup over a hosted auth and data backend. This project
models the small pieces of view logic that decide what those pages show, and
proves what each piece promises. The pieces are:

- the onboarding wizard's step counter;
- the document multi-select;
- the task groupings of the list and board views, and the project tabs;
- the lookup, sort and filter helpers of the data layer;
- the feed's resource names;
- the route guard and route table;
- the session store;
- the welcome name and onboarding flag;
- the member-avatar row;
- the active chat;
- the sidebar.

Each TypeScript file of this core is one Dafny module:

| module | file |
|---|---|
| `Onboarding` | `src/components/OnboardingModal.tsx` |
| `Documents` | `src/pages/Documents.tsx` |
| `Tasks`, `TaskList` | `src/components/TaskList.tsx` |
| `Tasks`, `BoardView` | `src/components/BoardView.tsx` |
| `MockData` | `src/data/mockData.ts` |
| `ActivityFeed` | `src/components/ActivityFeed.tsx` |
| `Routing` | `src/App.tsx` |
| `Auth` | `src/contexts/AuthContext.tsx` |
| `Index` | `src/pages/Index.tsx` |
| `Projects` | `src/pages/Projects.tsx` |
| `ProjectCard` | `src/components/ProjectCard.tsx` |
| `Messages` | `src/pages/Messages.tsx` |
| `Sidebar` | `src/components/Sidebar.tsx` |

Two further modules hold shared definitions:

- `Collections` gives the meaning of the JavaScript array methods the components use:
  - `filter`;
  - `find`;
  - `slice(0, end)`, including a negative `end`;
  - a stable `sort`, with the newest-first comparator.
- `Text` holds:
  - `split` and `join`;
  - the initials rule `name.split(' ').map(n => n[0]).join('')`, which the source repeats in many files;
  - decimal rendering of numbers.

How state and callbacks are modelled:

- State that a component changes with `useState` is a field of a Dafny class. Its setters are methods with `modifies` clauses:
  - `OnboardingModal`
  - `DocumentsPage`
  - `AuthProvider`
  - `IndexPage` with its `Storage`
  - `ProjectsPage`
  - `MessagesPage`
  - `SidebarPanel`
- Components without state are functions.
- A callback handed to a parent is modelled in one of three ways:
  - the event value it would be called with: `TaskEvent`, `Drop`, `HandleDelete`;
  - a ghost count of calls: `OnboardingModal.completions`;
  - the record and toast it returns: the sign-in and sign-up responses.

Every status string compared in a `switch` becomes a datatype with a case for any other string. Examples are `Tasks.Status.Other` and `Projects.ProjectStatus.OtherStatus`. Records hold a status of a subset type (`Tasks.CanonicalStatus`, `Projects.CanonicalStatus`, `Messages.CanonicalPresence`) whose other case never spells a known status, so each string has exactly one value. A parse/name round trip relates the datatype to the string.

## Model

| member | source | states |
|---|---|---|
| Onboarding.StepAfterInRange | src/components/OnboardingModal.tsx:29-41 | one Next, Back or Skip keeps the step within 1..4 |
| Onboarding.RunStaysInRange | src/components/OnboardingModal.tsx:21-22 | any sequence of actions keeps the step within 1..4 |
| Onboarding.NextBackInverse | src/components/OnboardingModal.tsx:29-41 | Back undoes Next below step 4, and Next undoes Back above step 1 |
| Onboarding.FourNextsComplete | src/components/OnboardingModal.tsx:29-35 | from step 1, three Nexts reach step 4 without completing, and a fourth completes exactly once |
| Onboarding.ButtonsMatchTransitions | src/components/OnboardingModal.tsx:211-225 | Back is disabled iff pressing it does nothing; the label is "Get Started" iff Next completes, and "Next" iff Next adds one |
| Onboarding.TabValueShowsOnePanel | src/components/OnboardingModal.tsx:60 | the tab value `step-N` is one of the four panels, and different steps select different panels |
| Onboarding.OnboardingModal.constructor | src/components/OnboardingModal.tsx:20-21 | the dialog starts open on step 1 with no completion |
| Onboarding.OnboardingModal.HandleComplete | src/components/OnboardingModal.tsx:24-27 | closes the dialog, leaves the step, and calls `onComplete` once (also the Skip link, line 55) |
| Onboarding.OnboardingModal.NextStep | src/components/OnboardingModal.tsx:29-35 | below step 4 the step goes up by one and the dialog stays open; at step 4 the step stays, the dialog closes and `onComplete` is called once |
| Onboarding.OnboardingModal.PrevStep | src/components/OnboardingModal.tsx:37-41 | above step 1 the step goes down by one; at step 1 nothing changes; never completes |
| Onboarding.OnboardingModal.OnOpenChange | src/components/OnboardingModal.tsx:44 | the dialog's own close control sets `open` only |
| Documents.Ids | src/pages/Documents.tsx:132 | the ids of the documents, in document order |
| Documents.Without | src/pages/Documents.tsx:122 | removes every occurrence of the id and keeps every other id |
| Documents.Toggled | src/pages/Documents.tsx:120-126 | the id is present afterwards iff it was absent before; every other id's presence is unchanged |
| Documents.WithoutAppended | src/pages/Documents.tsx:121-124 | removing an id just appended restores the list exactly |
| Documents.ToggleTwiceRestores | src/pages/Documents.tsx:120-126 | toggling an absent id twice restores the selection exactly |
| Documents.ToggleTwiceMovesToEnd | src/pages/Documents.tsx:120-126 | toggling a present id twice moves it to the end |
| Documents.ToggleKeepsOthersInOrder | src/pages/Documents.tsx:120-126 | toggling leaves the other ids in their order |
| Documents.ToggleKeepsDistinct | src/pages/Documents.tsx:120-126 | toggling never creates a duplicate |
| Documents.AfterSelectAll | src/pages/Documents.tsx:128-134 | the selection is cleared when its length equals the document count, and is all ids in document order otherwise |
| Documents.SelectAllTwiceClears | src/pages/Documents.tsx:128-134 | two select-alls from a partial selection end empty |
| Documents.CheckedHeaderMeansAllSelected | src/pages/Documents.tsx:357 | with a duplicate-free selection of document ids, a checked header (equal lengths, non-zero count) means every document is selected |
| Documents.RecentDocuments | src/pages/Documents.tsx:117 | the first min(3, n) documents |
| Documents.SharedDocuments | src/pages/Documents.tsx:118 | exactly the shared documents |
| Documents.SharedDocumentsInOrder | src/pages/Documents.tsx:118 | the shared list keeps document order |
| Documents.CatalogFacts | src/pages/Documents.tsx:54-115 | the page's six ids are distinct; recent is the first three; selecting all checks the header |
| Documents.CatalogOwnerInitials | src/pages/Documents.tsx:254 | every owner avatar on the page shows two letters: the owner's first letter and the one-letter surname |
| Documents.DocumentsPage.constructor | src/pages/Documents.tsx:52 | the selection starts empty over the page's documents |
| Documents.DocumentsPage.ToggleItemSelection | src/pages/Documents.tsx:120-126 | the new selection is `Toggled` of the old one; it stays duplicate-free and, for a listed id, within the documents |
| Documents.DocumentsPage.HandleSelectAll | src/pages/Documents.tsx:128-134 | the new selection is `AfterSelectAll` of the old one and stays valid |
| Tasks.ParseThenName | src/components/TaskList.tsx:21-32 | reading a status string and writing it back is the identity |
| Tasks.NameThenParse | src/components/TaskList.tsx:21-32 | writing a canonical status and reading it back is the identity |
| Tasks.NameEqualityIsStatusEquality | src/components/TaskList.tsx:35-37 | comparing status strings is comparing statuses |
| Tasks.TasksWithStatus | src/components/BoardView.tsx:53-54 | exactly the tasks with that status |
| Tasks.NoneWithStatus | src/components/BoardView.tsx:53-54 | a status filter is empty iff no task has that status |
| Tasks.MoveMenu | src/components/TaskList.tsx:121-138 | three entries targeting todo, in-progress and done; each is disabled iff it targets the task's status |
| Tasks.ClickMove | src/components/TaskList.tsx:122-134 | a disabled entry emits nothing; an enabled one emits `onUpdateStatus(task.id, target)` |
| Tasks.ClickDelete | src/components/TaskList.tsx:139-141 | Delete emits `onDeleteTask` with the task's own id |
| Tasks.MoveMenuDisablesCurrent | src/components/BoardView.tsx:72-89 | a known status disables exactly one entry, another status none |
| Tasks.MoveNeverToOwnStatus | src/components/TaskList.tsx:122-134 | no enabled move entry sends the task's own status string |
| Tasks.EnabledMoveChangesStatus | src/components/TaskList.tsx:122-123 | an entry enabled exactly when it targets another status never sends the task's own status string |
| TaskList.StatusColorsDistinct | src/components/TaskList.tsx:21-32 | the three known statuses get three distinct non-grey classes, everything else grey |
| TaskList.TasksByStatus | src/components/TaskList.tsx:34-38 | each group holds exactly the tasks of its status |
| TaskList.GroupsPartitionTasks | src/components/TaskList.tsx:34-38 | groups plus other-status tasks add up to the input as multisets, so groups are disjoint and other statuses appear in none |
| TaskList.GroupsKeepOrder | src/components/TaskList.tsx:34-38 | each group keeps input order |
| TaskList.Sections | src/components/TaskList.tsx:53-87 | a group's placeholder is shown iff no task has its status |
| BoardView.ColumnTasks | src/components/BoardView.tsx:53-54 | a column holds exactly the tasks whose status is its id |
| BoardView.BoardAgreesWithList | src/components/BoardView.tsx:22-26 | the columns are todo, in-progress and done in that order, and hold the list view's groups |
| BoardView.ColumnDescriptions | src/components/BoardView.tsx:100 | the descriptions drawn in a column are exactly the tasks of its status with a non-empty description, in task order |
| BoardView.ShowsNoTasks | src/components/BoardView.tsx:109 | "No tasks" is shown iff no task has the column's status |
| BoardView.GetData | src/components/BoardView.tsx:37 | the stored value, or the empty string for an unset key |
| BoardView.DropSendsDraggedTask | src/components/BoardView.tsx:28-39 | drop after drag start emits the dragged id and the column's status |
| BoardView.DropWithoutDrag | src/components/BoardView.tsx:36-39 | a drop with nothing dragged emits an empty task id |
| MockData.GetUserById | src/data/mockData.ts:45-47 | nothing iff no user has the id, otherwise the user at the first such index |
| MockData.GetProjectById | src/data/mockData.ts:50-52 | nothing iff no project has the id, otherwise the first match |
| MockData.GetDocumentById | src/data/mockData.ts:55-57 | nothing iff no document has the id, otherwise the first match |
| MockData.UserLookupIsFirstMatch | src/data/mockData.ts:45-47 | the lookup returns the element at the first index carrying the id |
| MockData.ProjectLookupIsFirstMatch | src/data/mockData.ts:50-52 | the lookup returns the element at the first index carrying the id |
| MockData.DocumentLookupIsFirstMatch | src/data/mockData.ts:55-57 | the lookup returns the element at the first index carrying the id |
| MockData.InitialLookupsFindNothing | src/data/mockData.ts:39-42 | with the initial empty arrays every lookup finds nothing |
| MockData.GetRecentActivities | src/data/mockData.ts:60-64 | min(limit, n) activities for a non-negative limit (JS rules for a negative one), newest first, all drawn from the activities |
| MockData.RecentActivitiesAreNewest | src/data/mockData.ts:61-63 | nothing cut off is newer than anything kept |
| MockData.RecentActivitiesStable | src/data/mockData.ts:61-62 | with a large limit nothing is lost, and equal timestamps keep their order |
| MockData.InitialRecentActivitiesEmpty | src/data/mockData.ts:42 | the default limit of 10 on the initial store gives no activity |
| MockData.GetDocumentsByProjectId | src/data/mockData.ts:67-69 | exactly the documents with that project id |
| MockData.ProjectDocumentsInOrder | src/data/mockData.ts:68 | the result keeps collection order and multiplicity |
| Collections.Filter | src/data/mockData.ts:68 | `filter`: only elements satisfying the predicate, and all of them |
| Collections.FilterAppend | src/data/mockData.ts:68 | `filter` distributes over concatenation, which fixes its order |
| Collections.FilterCommute | src/components/BoardView.tsx:54 | two filters give the same result in either order |
| Collections.FilterMultiset | src/data/mockData.ts:68 | `filter` keeps each matching element as often as the input has it |
| Collections.Find | src/data/mockData.ts:46 | `find`: nothing iff no element matches, otherwise the first match |
| Collections.SliceTo | src/data/mockData.ts:63 | `slice(0, end)`: a prefix whose length follows JavaScript's rules for `end` |
| Collections.SortDescending | src/data/mockData.ts:62 | the sort is a permutation with non-increasing timestamps |
| Collections.SortStable | src/data/mockData.ts:62 | the sort is stable: equal keys keep their input order |
| Collections.PrefixHoldsLargest | src/data/mockData.ts:62-63 | a prefix of a newest-first list holds the newest elements |
| ActivityFeed.ResourceName | src/components/ActivityFeed.tsx:14-23 | never empty; a comment gives "Unknown resource" |
| ActivityFeed.DocumentResourceName | src/components/ActivityFeed.tsx:15-17 | the first matching document's title, or "Unknown document" when it is empty |
| ActivityFeed.ProjectResourceName | src/components/ActivityFeed.tsx:18-20 | the first matching project's name, or "Unknown project" when it is empty |
| ActivityFeed.MissingResourceName | src/components/ActivityFeed.tsx:15-22 | an unmatched id gives the fallback of its type |
| ActivityFeed.ItemFor | src/components/ActivityFeed.tsx:11-47 | the item shows the user's name and initials, or nothing for an unknown user, plus the action and resource name |
| ActivityFeed.Feed | src/components/ActivityFeed.tsx:63-65 | one item per activity, in the given order |
| ActivityFeed.FeedAppend | src/components/ActivityFeed.tsx:63-65 | the feed of two lists is the feed of the first followed by that of the second |
| ActivityFeed.InitialFeedFallsBack | src/components/ActivityFeed.tsx:12-22 | over the initial store every item shows no user and a fallback name |
| Routing.Resolve | src/App.tsx:41-53 | a path in the table selects an entry with that path, anything else the unguarded NotFound |
| Routing.Guard | src/App.tsx:19-27 | loading shows the placeholder, a user renders the page, no user redirects to `/auth` |
| Routing.RoutePaths | src/App.tsx:42-50 | the table is `/auth` followed by the six guarded paths, all distinct |
| Routing.ResolveFindsEntry | src/App.tsx:41-50 | each path selects its own entry |
| Routing.AuthPageUnguarded | src/App.tsx:42 | `/auth` renders whatever the auth state |
| Routing.FeatureRoutesGuarded | src/App.tsx:45-50 | each of the six feature routes shows loading, its page or the redirect, by the guard |
| Routing.UnknownPathNotFound | src/App.tsx:53 | any other path renders NotFound |
| Routing.RedirectLandsOnUnguardedPage | src/App.tsx:26 | the redirect target renders without the guard, so redirects cannot loop |
| Routing.SignOutThenVisit | src/contexts/AuthContext.tsx:48-53 | after sign-out and the change event, a feature route redirects to `/auth` |
| Auth.ErrorMessage | src/contexts/AuthContext.tsx:83 | an `Error`'s message, otherwise "An unknown error occurred" |
| Auth.HandleOutcome | src/contexts/AuthContext.tsx:60-124 | success iff the remote accepted, with the success toast; a rejection returns the remote message, a thrown value its `Error` message or the fallback; every failure shows a destructive toast repeating the returned error |
| Auth.SignUpMirrorsSignIn | src/contexts/AuthContext.tsx:93-124 | sign-up returns exactly sign-in's result for the same outcome |
| Auth.AuthProvider.constructor | src/contexts/AuthContext.tsx:24-25 | no user, loading |
| Auth.AuthProvider.FinishFetch | src/contexts/AuthContext.tsx:30-43 | loading ends on every path; the user changes only on success |
| Auth.AuthProvider.OnAuthStateChange | src/contexts/AuthContext.tsx:48-53 | the user becomes the session's user, or none without a session; loading ends |
| Auth.AuthProvider.SignIn | src/contexts/AuthContext.tsx:60-91 | returns the shared outcome handling with the sign-in wording ("Login failed", "Logged in successfully", "Welcome back!") and changes no provider state |
| Auth.AuthProvider.SignUp | src/contexts/AuthContext.tsx:93-124 | returns the shared outcome handling with the sign-up wording ("Sign up failed", "Sign up successful", "Please check your email for confirmation.") and changes no provider state |
| Auth.AuthProvider.SignOut | src/contexts/AuthContext.tsx:126-133 | shows the logged-out toast and does not touch the user |
| Auth.UseAuth | src/contexts/AuthContext.tsx:146-151 | fails with the provider message iff there is no context |
| Index.WelcomeNameIsLocalPart | src/pages/Index.tsx:29 | "User" without a user or email, otherwise the text before the first `@`, or "User" when that is empty |
| Index.WelcomeNameOfAddress | src/pages/Index.tsx:29 | for `local@domain` the name is `local` |
| Index.OnboardingPending | src/pages/Index.tsx:15 | pending iff the stored flag is `null` or empty |
| Index.Storage.constructor | src/pages/Index.tsx:15 | the storage holds exactly its initial items |
| Index.Storage.GetItem | src/pages/Index.tsx:15 | `null` iff the key was never set, otherwise the stored string |
| Index.Storage.SetItem | src/pages/Index.tsx:18 | afterwards `GetItem` of the key gives the value, and every other key reads as before |
| Index.IndexPage.constructor | src/pages/Index.tsx:15-24 | the modal is mounted iff `getItem` of the flag is `null` or empty, and a mounted modal starts open on step 1 |
| Index.IndexPage.CompleteOnboarding | src/pages/Index.tsx:17-20 | stores "true" and unmounts the modal, so onboarding is no longer pending |
| Index.IndexPage.ShowGuide | src/pages/Index.tsx:153 | sets `showOnboarding`: mounts a fresh open modal when none is mounted, and otherwise leaves the mounted modal as it is; the storage is unchanged |
| Index.IndexPage.ShowGuideReopening | src/pages/Index.tsx:153 | corrected guide button: afterwards the modal is mounted and open; the storage is unchanged |
| Index.GuideAfterDismissStaysClosed | src/pages/Index.tsx:153 | as written: closing the modal with its own control and then pressing the guide button leaves the modal closed |
| Index.GuideAfterDismissReopens | src/pages/Index.tsx:153 | corrected: after the same steps the modal is open |
| Index.CompletedStaysCompleted | src/pages/Index.tsx:15-20 | after completion a fresh page starts without the modal, even after the guide was re-shown |
| Index.RecentUpdates | src/pages/Index.tsx:165-183 | "No recent updates" iff the project count (`projects.length`, line 56) is zero |
| Index.InitialStoreShowsNoUpdates | src/pages/Index.tsx:56 | with the initial empty projects: 0 and "No recent updates" |
| Projects.ParseThenName | src/pages/Projects.tsx:108-119 | reading a status string and writing it back is the identity |
| Projects.NameThenParse | src/pages/Projects.tsx:467 | writing a canonical status and reading it back is the identity, so `status === 'Completed'` is `status == Completed` |
| Projects.StatusColorsDistinct | src/pages/Projects.tsx:108-119 | three distinct non-grey classes for the known statuses, grey otherwise |
| Projects.ActiveProjects | src/pages/Projects.tsx:416-417 | exactly the projects not "Completed" |
| Projects.CompletedProjects | src/pages/Projects.tsx:466-467 | exactly the "Completed" projects |
| Projects.TabsPartitionProjects | src/pages/Projects.tsx:416-417 | the two tabs partition the projects |
| Projects.TabsKeepOrder | src/pages/Projects.tsx:466-467 | both tabs keep the page order |
| Projects.PageTabs | src/pages/Projects.tsx:37-106 | on the page's data: four active, one completed |
| Projects.MemberInitials | src/pages/Projects.tsx:321-327 | one initials string per member, in order |
| Projects.AllTabLayout | src/pages/Projects.tsx:295-347 | cards iff the mode is grid, else the table |
| Projects.OneButtonHighlighted | src/pages/Projects.tsx:269-277 | exactly one view button is highlighted, the one for the shown layout |
| Projects.ProjectsPage.constructor | src/pages/Projects.tsx:35 | the mode starts as grid |
| Projects.ProjectsPage.SetViewMode | src/pages/Projects.tsx:270-278 | the mode is set outright |
| Projects.PressTwice | src/pages/Projects.tsx:270-278 | pressing a button twice is the same as once |
| ProjectCard.AvatarFor | src/components/ProjectCard.tsx:75-79 | an avatar for that member id, showing the initials of the first user with the id, or nothing when no user has it |
| ProjectCard.MemberRowFor | src/components/ProjectCard.tsx:72-91 | "No team members" iff absent or empty; otherwise the avatars of the first min(n, 3) members in order, and a "+(n-3)" badge iff n > 3, at most 4 avatars |
| ProjectCard.OverflowCountsHiddenMembers | src/components/ProjectCard.tsx:83-86 | an overflow badge appears iff n > 3, and its number plus 3 is n |
| ProjectCard.HandleDelete | src/components/ProjectCard.tsx:22-26 | `onDelete` is called exactly once when provided, never otherwise |
| Messages.PresenceRoundTrip | src/pages/Messages.tsx:54-67 | reading a status string and writing it back is the identity, and so is writing a canonical status and reading it back |
| Messages.StatusColorCases | src/pages/Messages.tsx:54-67 | online, away and group have their own colours; offline and unknown statuses are grey |
| Messages.FindContact | src/pages/Messages.tsx:182-191 | the contact with that id, or nothing iff there is none |
| Messages.PageUnreadBadges | src/pages/Messages.tsx:163 | on the page's contacts the unread badge shows exactly for contacts "1" and "3" |
| Messages.PageUnreadBadgeCount | src/pages/Messages.tsx:163 | the contacts with a badge are Alex Johnson and the Development Team, in list order |
| Messages.HeaderDot | src/pages/Messages.tsx:188 | a missing contact is drawn grey (offline) |
| Messages.HeaderLabel | src/pages/Messages.tsx:189-191 | Online, Away, "5 members" or Offline by status; a missing contact gives Offline |
| Messages.HeaderLabelAgreesWithDot | src/pages/Messages.tsx:188-191 | "Offline" exactly for missing, offline or unknown, and then the dot is grey |
| Messages.EachMessageOneSide | src/pages/Messages.tsx:232-234 | a message is right-aligned iff it is from "me", and only the others carry the avatar |
| Messages.OneRowHighlighted | src/pages/Messages.tsx:143 | with distinct ids at most one contact row is highlighted, and it is the header's contact |
| Messages.MessagesPage.constructor | src/pages/Messages.tsx:43-52 | the active chat starts as "1", a listed contact |
| Messages.MessagesPage.SelectContact | src/pages/Messages.tsx:144 | a click makes that contact's id the active chat |
| Messages.MessagesPage.HeaderFindsContact | src/pages/Messages.tsx:175-191 | the conversation pane is drawn and the header finds its contact |
| Messages.FirstHeader | src/pages/Messages.tsx:43-46 | first render: Alex Johnson, "Online", initials "AJ" |
| Sidebar.LinkHrefsDistinct | src/components/Sidebar.tsx:79-88 | the seven hrefs are distinct |
| Sidebar.AtMostOneActive | src/components/Sidebar.tsx:79-88 | at most one link is active for any path |
| Sidebar.MainLinksGuarded | src/components/Sidebar.tsx:79-84 | the six main links lead to guarded routes |
| Sidebar.SettingsLinkNotFound | src/components/Sidebar.tsx:88 | the Settings link leads to a path with no route, so NotFound shows |
| Sidebar.WidthClass | src/components/Sidebar.tsx:50 | `w-16` iff collapsed, `w-64` iff expanded |
| Sidebar.TextFollowsWidth | src/components/Sidebar.tsx:50-74 | the title and the "New Project" label show together, exactly when the panel is wide |
| Sidebar.SidebarPanel.constructor | src/components/Sidebar.tsx:43 | starts expanded |
| Sidebar.SidebarPanel.Toggle | src/components/Sidebar.tsx:59 | flips `collapsed` |
| Sidebar.ToggleTwice | src/components/Sidebar.tsx:59 | two presses restore the state and width |
| Text.Split | src/pages/Documents.tsx:254 | `split` gives at least one piece, none containing the separator |
| Text.JoinSplit | src/pages/Documents.tsx:254 | joining the pieces of a split gives back the string |
| Text.SplitJoin | src/pages/Documents.tsx:254 | splitting a join of separator-free pieces gives back the pieces |
| Text.SplitFirstPiece | src/pages/Index.tsx:29 | `split(sep)[0]` is the text before the first separator |
| Text.Initials | src/pages/Documents.tsx:254 | initials contain no space and are at most one character per piece |
| Text.InitialsOfTwoWords | src/components/ProjectCard.tsx:79 | the initials of two space-separated words are their two first letters |
| Text.InitialsAround | src/components/ProjectCard.tsx:79 | the initials of `a + " " + b` are those of `a` followed by those of `b` |
| Text.InitialsIgnoreExtraSpaces | src/pages/Messages.tsx:149 | a doubled space adds no character to the initials |
| Text.InitialsIgnoreLeadingSpace | src/pages/Messages.tsx:149 | a leading space adds no character to the initials |
| Text.InitialsOfFullName | src/pages/Messages.tsx:46 | "Alex Johnson" gives "AJ" |
| Text.DecimalString | src/components/ProjectCard.tsx:85 | a number renders as a canonical decimal: digits only, no leading zero |
| Text.InitialsOfWord | src/pages/Documents.tsx:254 | a single word's initials are its first character |
| Text.DecimalRoundTrip | src/components/ProjectCard.tsx:85 | reading back a rendered number gives the number |

## Left out

- Rendering is left out: JSX layout, CSS beyond the class names selected above, icons, and the `Tabs` component. The model keeps only the values that choose what is drawn.
- Network and effects are left out:
  - Supabase is not modelled, and `src/lib/supabase.ts` is not part of this model. Each remote answer is an input datatype: `FetchOutcome` and `RemoteOutcome`.
  - `console.error` and the toasts' display are left out. The toast records are returned values.
- Async ordering is not modelled:
  - The fetch and the auth listener are sequential method calls, with no interleaving.
  - The subscription lifecycle (unsubscribe on unmount) is left out.
- `Auth.AuthProvider.SignOut`: the remote `signOut()` call is not modelled. `Routing.SignOutThenVisit` models the following auth-change event as a separate call.
- A session whose `user` field is null or undefined is not modelled. `Auth.Session` always carries a user, as the auth library's sessions do.
- `src/contexts/AuthContext.tsx:48` dereferences `supabase.auth` directly, so a missing client has no state of its own in the model. The null-client guard in `src/lib/supabase.ts` is not part of this model.
- `Routing.Resolve`: matches paths exactly. The router's case-insensitive matching and its trailing-slash tolerance are not modelled.
- `Routing.View`: the `QueryClientProvider` and `TooltipProvider` wrappers have no decision logic and are not modelled.
- Dates are not modelled:
  - Timestamps are integers.
  - `new Date(...)` parsing and invalid-date `NaN` comparisons are not modelled (`src/data/mockData.ts:62`).
  - Neither is the due-date formatting in `src/components/ProjectCard.tsx:61` or the relative time in the feed.
- `BoardView.Drop`: the drag carrier is a key-to-string map, so DOM `dataTransfer` rules are not modelled. These include the protected mode during `dragover` and MIME normalisation of keys.
- `Index.Storage`: local storage is a key-to-string map. Quotas, other tabs and storage events are not modelled.
- `Text.Initials` works on Dafny characters. JavaScript indexes UTF-16 code units, so a name starting with a surrogate pair gives half a pair in the source. That case is not modelled.
- `Collections.SortDescending`: the sort is stable, as the ES2019 specification requires of `Array.prototype.sort`. Engines predating that are not modelled.
- Some numbers are shown but not modelled: progress percentages, task counts and document counts are integers that are only displayed.
- Files outside the core are not part of this model:
  - `src/pages/Team.tsx`: constant arrays only. Its invitation buttons have no handlers.
  - `src/pages/Reports.tsx`: chart data and floating-point percentage formatting.
  - `src/components/DocumentItem.tsx`: date formatting against the wall clock.
  - `src/components/Header.tsx` and `src/components/Layout.tsx`: markup only.
- `TaskType` is defined in `src/types/Task.ts`, which is not part of this model. `Tasks.Task` holds the fields the two views read.
- `Onboarding.OnboardingModal`: the parent's `onComplete` is recorded as a ghost count of calls (`completions`), not an event log. Completion is the only callback of the component.

## Findings

| source | as written | input that shows it | evidently intended | confidence | as-written member | corrected member |
|---|---|---|---|---|---|---|
| src/pages/Index.tsx:153 | The guide button only calls `setShowOnboarding(true)`. The modal closed by its own control stays mounted, with `showOnboarding` still true and its own `open` false. | Close the onboarding dialog with its close control, then press "Show Onboarding Guide": nothing appears (line 24 keeps the closed modal mounted). | Pressing the button shows the guide again. | not executed | Index.GuideAfterDismissStaysClosed | Index.GuideAfterDismissReopens |

`Index.IndexPage.ShowGuide` models the button as written, and `Index.IndexPage.ShowGuideReopening` models it as corrected. `Index.CompletedStaysCompleted` uses the corrected button.
