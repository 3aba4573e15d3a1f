/** The Messages page (src/pages/Messages.tsx): a fixed contact list, the
    selected conversation, the presence colours and label, the unread badge
    and the alignment of messages. */
module Messages {
  import opened Collections
  import Text

  /** A presence status; any string other than the four known ones is
      `OtherPresence`. */
  datatype Presence = Online | Away | Offline | Group | OtherPresence(name: string)

  function PresenceName(st: Presence): string
  {
    match st
    case Online => "online"
    case Away => "away"
    case Offline => "offline"
    case Group => "group"
    case OtherPresence(name) => name
  }

  /** Read a status string. */
  function ParsePresence(s: string): CanonicalPresence
  {
    if s == "online" then Online
    else if s == "away" then Away
    else if s == "offline" then Offline
    else if s == "group" then Group
    else OtherPresence(s)
  }

  /** `OtherPresence` never spells one of the four known statuses. */
  ghost predicate Canonical(st: Presence)
  {
    st.OtherPresence? ==>
      st.name != "online" && st.name != "away" && st.name != "offline" && st.name != "group"
  }

  /** The statuses a status string can be read as: exactly one value per
      string. */
  type CanonicalPresence = st: Presence | Canonical(st) witness Offline

  /** Reading a status string and writing it back is the identity, and so is
      writing a canonical status and reading it back. */
  lemma PresenceRoundTrip(s: string, st: CanonicalPresence)
    ensures PresenceName(ParsePresence(s)) == s
    ensures ParsePresence(PresenceName(st)) == st
  {
  }

  datatype Contact = Contact(id: string, name: string, status: CanonicalPresence, unread: int)

  /** The page's constant `contacts` (avatars, last messages and times left
      out). */
  const PageContacts: seq<Contact> := [
    Contact("1", "Alex Johnson", Online, 3),
    Contact("2", "Sarah Miller", Offline, 0),
    Contact("3", "Development Team", Group, 5),
    Contact("4", "Emily Chen", Online, 0),
    Contact("5", "David Lee", Away, 0),
    Contact("6", "Marketing Team", Group, 0)
  ]

  const GreyDot := "bg-gray-500"

  /** `getStatusColor`. */
  function StatusColor(st: Presence): string
  {
    match st
    case Online => "bg-green-500"
    case Away => "bg-yellow-500"
    case Offline => GreyDot
    case Group => "bg-blue-500"
    case OtherPresence(_) => GreyDot
  }

  /** Online, away and group have their own colours; offline shares the
      grey of every unknown status. */
  lemma StatusColorCases(st: Presence)
    ensures StatusColor(st) == GreyDot <==> st == Offline || st.OtherPresence?
    ensures StatusColor(Online) != StatusColor(Away)
    ensures StatusColor(Online) != StatusColor(Group)
    ensures StatusColor(Away) != StatusColor(Group)
  {
  }

  function HasId(id: string): Contact -> bool { (c: Contact) => c.id == id }

  /** `contacts.find(c => c.id === activeChat)`. */
  function FindContact(contacts: seq<Contact>, id: string): (r: Option<Contact>)
    ensures r.None? <==> forall i :: 0 <= i < |contacts| ==> contacts[i].id != id
    ensures r.Some? ==> r.value.id == id && r.value in contacts
  {
    Find(contacts, HasId(id))
  }

  /** The header dot: `getStatusColor(contact?.status || 'offline')`, so a
      missing contact and an empty status string are both drawn offline. */
  function HeaderDot(contact: Option<Contact>): (cls: string)
    ensures contact.None? ==> cls == GreyDot
    ensures contact.Some? && contact.value.status != OtherPresence("") ==> cls == StatusColor(contact.value.status)
  {
    match contact
    case None => StatusColor(Offline)
    case Some(c) => if c.status == OtherPresence("") then StatusColor(Offline) else StatusColor(c.status)
  }

  /** The header's status text. */
  function HeaderLabel(contact: Option<Contact>): (text: string)
    ensures contact.None? ==> text == "Offline"
    ensures contact.Some? ==>
              text == match contact.value.status
                       case Online => "Online"
                       case Away => "Away"
                       case Group => "5 members"
                       case _ => "Offline"
  {
    if contact.Some? && contact.value.status == Online then "Online"
    else if contact.Some? && contact.value.status == Away then "Away"
    else if contact.Some? && contact.value.status == Group then "5 members"
    else "Offline"
  }

  /** The label says "Offline" exactly when the contact is missing, offline
      or in an unknown status, and then the dot is grey too. */
  lemma HeaderLabelAgreesWithDot(contact: Option<Contact>)
    ensures HeaderLabel(contact) == "Offline" <==>
              contact.None? || contact.value.status == Offline || contact.value.status.OtherPresence?
    ensures HeaderLabel(contact) == "Offline" ==> HeaderDot(contact) == GreyDot
  {
  }

  /** A contact row is drawn highlighted when it is the active chat. */
  function Highlighted(contact: Contact, activeChat: string): bool
  {
    contact.id == activeChat
  }

  /** `{contact.unread > 0 && <Badge>}`: the unread badge is drawn for a
      positive count only. */
  function ShowsUnreadBadge(contact: Contact): bool
  {
    contact.unread > 0
  }

  /** On the page's own contacts the badge is drawn exactly for Alex Johnson
      (3 unread) and the Development Team (5 unread). */
  lemma PageUnreadBadges()
    ensures forall i :: 0 <= i < |PageContacts| ==>
              (ShowsUnreadBadge(PageContacts[i]) <==> PageContacts[i].id == "1" || PageContacts[i].id == "3")
  {
  }

  /** So the list shows two unread badges. */
  lemma {:induction false} PageUnreadBadgeCount()
    ensures Filter(PageContacts, ShowsUnreadBadge) == [PageContacts[0], PageContacts[2]]
  {
    var p := PageContacts;
    assert p[5..][1..] == [];
    assert Filter(p[5..], ShowsUnreadBadge) == [];
    assert p[4..][1..] == p[5..];
    assert Filter(p[4..], ShowsUnreadBadge) == [];
    assert p[3..][1..] == p[4..];
    assert Filter(p[3..], ShowsUnreadBadge) == [];
    assert p[2..][1..] == p[3..];
    assert Filter(p[2..], ShowsUnreadBadge) == [p[2]];
    assert p[1..][1..] == p[2..];
    assert Filter(p[1..], ShowsUnreadBadge) == [p[2]];
  }

  datatype Message = Message(id: int, sender: string, content: string)

  /** A message from "me" is right-aligned and has no avatar; every other
      message is left-aligned with the contact's avatar. */
  function RightAligned(m: Message): bool { m.sender == "me" }
  function ShowsAvatar(m: Message): bool { m.sender != "me" }

  lemma EachMessageOneSide(m: Message)
    ensures RightAligned(m) != ShowsAvatar(m)
  {
  }

  /** The contact ids are distinct and non-empty. */
  ghost predicate WellFormed(contacts: seq<Contact>)
  {
    (forall i, j :: 0 <= i < j < |contacts| ==> contacts[i].id != contacts[j].id) &&
    (forall i :: 0 <= i < |contacts| ==> contacts[i].id != "")
  }

  /** With distinct ids at most one row is highlighted, and it is the row
      the header describes. */
  lemma {:induction false} OneRowHighlighted(contacts: seq<Contact>, activeChat: string, i: nat, j: nat)
    requires WellFormed(contacts)
    requires i < |contacts| && j < |contacts|
    requires Highlighted(contacts[i], activeChat) && Highlighted(contacts[j], activeChat)
    ensures i == j
    ensures FindContact(contacts, activeChat) == Some(contacts[i])
  {
    var found := FindContact(contacts, activeChat);
    var k :| 0 <= k < |contacts| && contacts[k] == found.value;
    assert contacts[k].id == contacts[i].id;
  }

  class MessagesPage {
    const contacts: seq<Contact>
    /** The `activeChat` state: the id of the open conversation. */
    var activeChat: string

    /** The active chat is one of the listed contacts. */
    ghost predicate Valid()
      reads this
    {
      WellFormed(contacts) && exists i :: 0 <= i < |contacts| && contacts[i].id == activeChat
    }

    constructor ()
      ensures contacts == PageContacts && activeChat == "1"
      ensures Valid()
    {
      contacts := PageContacts;
      activeChat := "1";
      assert PageContacts[0].id == "1";
    }

    /** Clicking the row of contact `i`. */
    method SelectContact(i: nat)
      requires i < |contacts|
      requires Valid()
      modifies this
      ensures activeChat == contacts[i].id
      ensures Valid()
    {
      activeChat := contacts[i].id;
    }

    /** The conversation pane is drawn for a non-empty `activeChat`. */
    function ShowsConversation(): bool
      reads this
    {
      activeChat != ""
    }

    /** In a valid page the conversation pane is always drawn and the header
        always finds its contact, so its label comes from a real status. */
    lemma HeaderFindsContact()
      requires Valid()
      ensures ShowsConversation()
      ensures FindContact(contacts, activeChat).Some?
      ensures FindContact(contacts, activeChat).value.id == activeChat
    {
    }
  }

  /** On first render the header shows Alex Johnson, online, as "AJ". */
  lemma {:induction false} FirstHeader()
    ensures FindContact(PageContacts, "1") == Some(PageContacts[0])
    ensures HeaderLabel(Some(PageContacts[0])) == "Online"
    ensures Text.Initials(PageContacts[0].name) == "AJ"
  {
    Text.InitialsOfFullName();
    assert HasId("1")(PageContacts[0]);
  }
}
