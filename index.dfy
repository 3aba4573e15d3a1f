/** The dashboard home page (src/pages/Index.tsx): the welcome line, the
    onboarding flag kept in local storage, and the project-count panels. */
module Index {
  import opened Collections
  import Text
  import Auth
  import MockData
  import Onboarding

  const Fallback := "User"

  /** `user?.email?.split('@')[0] || 'User'`. */
  function WelcomeName(user: Option<Auth.AuthUser>): (name: string)
  {
    match user
    case None => Fallback
    case Some(u) =>
      match u.email
      case None => Fallback
      case Some(email) =>
        var local := Text.Split(email, '@')[0];
        if local == "" then Fallback else local
  }

  /** The welcome name is "User", or the non-empty text of the email before
      its first `@`. */
  lemma WelcomeNameIsLocalPart(user: Option<Auth.AuthUser>)
    ensures user.None? || user.value.email.None? ==> WelcomeName(user) == Fallback
    ensures user.Some? && user.value.email.Some? ==>
              var before := Text.Before(user.value.email.value, '@');
              WelcomeName(user) == if before == "" then Fallback else before
  {
    if user.Some? && user.value.email.Some? {
      Text.SplitFirstPiece(user.value.email.value, '@');
    }
  }

  /** For an address `local@domain` with a non-empty local part, the welcome
      name is the local part, whatever the domain holds. */
  lemma {:induction false} WelcomeNameOfAddress(id: string, local: string, domain: string)
    requires local != "" && '@' !in local
    ensures WelcomeName(Some(Auth.AuthUser(id, Some(local + "@" + domain)))) == local
  {
    var email := local + "@" + domain;
    Text.SplitAround(local, '@', domain);
    Text.SplitWithoutSeparator(local, '@');
    assert email == local + ['@'] + domain;
    assert Text.Split(email, '@')[0] == local;
  }

  const OnboardingKey := "onboardingComplete"

  /** `!localStorage.getItem('onboardingComplete')`: a missing key (`null`)
      and an empty value are both falsy, so both count as not done. */
  function OnboardingPending(flag: Option<string>): (pending: bool)
    ensures pending <==> flag.None? || flag.value == ""
  {
    !(flag.Some? && flag.value != "")
  }

  /** The browser's local storage, as a key-to-string map. */
  class Storage {
    var items: map<string, string>

    constructor (initial: map<string, string>)
      ensures items == initial
    {
      items := initial;
    }

    /** `getItem`: `null` (here `None`) for a key never set, otherwise the
        stored string. */
    function GetItem(key: string): (v: Option<string>)
      reads this
      ensures v.None? <==> key !in items
      ensures v.Some? ==> v.value == items[key]
    {
      if key in items then Some(items[key]) else None
    }

    /** `setItem`: afterwards the key reads back the value just stored, and
        every other key reads as it did before. */
    method SetItem(key: string, value: string)
      modifies this
      ensures items == old(items)[key := value]
      ensures GetItem(key) == Some(value)
      ensures forall k :: k != key ==> GetItem(k) == old(GetItem(k))
    {
      items := items[key := value];
    }
  }

  class IndexPage {
    const storage: Storage
    /** The `showOnboarding` state. */
    var showOnboarding: bool
    /** The `OnboardingModal` that `{showOnboarding && <OnboardingModal/>}`
        mounts, with its own state; `null` while unmounted. */
    var modal: Onboarding.OnboardingModal?

    /** The modal is mounted exactly while `showOnboarding` holds. */
    ghost predicate Valid()
      reads this, modal
    {
      (showOnboarding <==> modal != null) && (modal != null ==> modal.Valid())
    }

    /** The page's first render reads the flag once and, when onboarding is
        pending, mounts a fresh modal: open, on step 1. */
    constructor (storage: Storage)
      ensures this.storage == storage
      ensures showOnboarding == OnboardingPending(storage.GetItem(OnboardingKey))
      ensures showOnboarding ==> fresh(modal) && modal.open && modal.currentStep == 1
      ensures Valid()
    {
      this.storage := storage;
      var pending := OnboardingPending(storage.GetItem(OnboardingKey));
      showOnboarding := pending;
      if pending {
        modal := new Onboarding.OnboardingModal();
      } else {
        modal := null;
      }
    }

    /** `completeOnboarding`, the modal's `onComplete`: remember completion,
        then hide the modal, which unmounts it. */
    method CompleteOnboarding()
      modifies this, storage
      ensures storage.items == old(storage.items)[OnboardingKey := "true"]
      ensures !showOnboarding && modal == null
      ensures !OnboardingPending(storage.GetItem(OnboardingKey))
      ensures Valid()
    {
      storage.SetItem(OnboardingKey, "true");
      showOnboarding := false;
      modal := null;
    }

    /** "Show Onboarding Guide": `setShowOnboarding(true)`. When the modal is
        unmounted this mounts a fresh one; when it is already mounted the
        state does not change, so the mounted modal keeps its own `open`. */
    method ShowGuide()
      requires Valid()
      modifies this
      ensures showOnboarding && Valid()
      ensures old(showOnboarding) ==> modal == old(modal)
      ensures !old(showOnboarding) ==> fresh(modal) && modal.open && modal.currentStep == 1
      ensures storage.items == old(storage.items)
    {
      if !showOnboarding {
        modal := new Onboarding.OnboardingModal();
      }
      showOnboarding := true;
    }

    /** The guide button as evidently intended: the guide is on screen
        afterwards. A modal that is closed or absent is replaced by a fresh
        one, open on step 1; an open one is left as it is. */
    method ShowGuideReopening()
      requires Valid()
      modifies this
      ensures showOnboarding && Valid()
      ensures modal.open
      ensures old(modal) != null && old(modal.open) ==> modal == old(modal)
      ensures storage.items == old(storage.items)
    {
      if modal == null || !modal.open {
        modal := new Onboarding.OnboardingModal();
      }
      showOnboarding := true;
    }
  }

  /** As written: closing the modal with the dialog's own control and then
      pressing "Show Onboarding Guide" leaves the guide closed, because
      `showOnboarding` was still true and the mounted modal keeps `open`
      false. */
  method GuideAfterDismissStaysClosed(page: IndexPage)
    requires page.Valid() && page.showOnboarding
    modifies page, page.modal
    ensures page.modal != null && !page.modal.open
  {
    page.modal.OnOpenChange(false);
    page.ShowGuide();
  }

  /** Corrected: after the same dismissal the reopening guide button shows
      the guide again. */
  method GuideAfterDismissReopens(page: IndexPage)
    requires page.Valid() && page.showOnboarding
    modifies page, page.modal
    ensures page.modal != null && page.modal.open
  {
    page.modal.OnOpenChange(false);
    page.ShowGuideReopening();
  }

  /** After completion, a fresh page over the same storage starts without
      the modal, and later visits of the guide do not clear that. */
  method CompletedStaysCompleted(storage: Storage) returns (later: IndexPage)
    modifies storage
    ensures !later.showOnboarding && later.modal == null
    ensures !OnboardingPending(storage.GetItem(OnboardingKey))
  {
    var page := new IndexPage(storage);
    page.CompleteOnboarding();
    page.ShowGuideReopening();
    later := new IndexPage(storage);
  }

  /** The "Recent Updates" card. */
  datatype UpdatesPanel = UpdatesWillAppear | NoRecentUpdates

  /** The stats card shows `projects.length`; the updates card shows its
      placeholder exactly when that count is zero. */
  function ProjectCount(store: MockData.Store): nat
  {
    |store.projects|
  }

  function RecentUpdates(store: MockData.Store): (panel: UpdatesPanel)
    ensures panel == NoRecentUpdates <==> ProjectCount(store) == 0
  {
    if |store.projects| > 0 then UpdatesWillAppear else NoRecentUpdates
  }

  /** With the initial, empty project list the page shows 0 projects and
      "No recent updates yet". */
  lemma InitialStoreShowsNoUpdates()
    ensures ProjectCount(MockData.InitialStore) == 0
    ensures RecentUpdates(MockData.InitialStore) == NoRecentUpdates
  {
  }
}
