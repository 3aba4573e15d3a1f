/** The project card (src/components/ProjectCard.tsx): the member avatar
    row with its "+k" overflow badge, and the optional delete callback. */
module ProjectCard {
  import opened Collections
  import Text
  import MockData

  const MaxShown: nat := 3

  datatype Avatar = MemberAvatar(memberId: string, initials: string) | Overflow(text: string)

  datatype MemberRow = NoTeamMembers | Avatars(avatars: seq<Avatar>)

  /** One member's avatar: the initials of the user with that id, or nothing
      when no user has it. */
  function AvatarFor(store: MockData.Store, memberId: string): (a: Avatar)
    ensures a.MemberAvatar? && a.memberId == memberId
    ensures (forall i :: 0 <= i < |store.users| ==> store.users[i].id != memberId) ==> a.initials == ""
    ensures forall i :: 0 <= i < |store.users| && store.users[i].id == memberId &&
                        (forall j :: 0 <= j < i ==> store.users[j].id != memberId) ==>
                        a.initials == Text.Initials(store.users[i].name)
  {
    LookupAtFirstMatch(store, memberId);
    match MockData.GetUserById(store, memberId)
    case Some(u) => MemberAvatar(memberId, Text.Initials(u.name))
    case None => MemberAvatar(memberId, "")
  }

  /** `GetUserById` returns the user at the first index with the id. */
  lemma LookupAtFirstMatch(store: MockData.Store, memberId: string)
    ensures forall i :: 0 <= i < |store.users| && store.users[i].id == memberId &&
                        (forall j :: 0 <= j < i ==> store.users[j].id != memberId) ==>
                        MockData.GetUserById(store, memberId) == Some(store.users[i])
  {
    forall i | 0 <= i < |store.users| && store.users[i].id == memberId &&
               (forall j :: 0 <= j < i ==> store.users[j].id != memberId)
    {
      MockData.UserLookupIsFirstMatch(store, memberId, i);
    }
  }

  /** The footer's member row for `project.teamMembers`, which may be absent. */
  function MemberRowFor(store: MockData.Store, members: Option<seq<string>>): (row: MemberRow)
    ensures row.NoTeamMembers? <==> members.None? || |members.value| == 0
    ensures row.Avatars? ==>
              var n := |members.value|;
              var shown := if n < MaxShown then n else MaxShown;
              |row.avatars| == shown + (if n > MaxShown then 1 else 0) &&
              |row.avatars| <= MaxShown + 1 &&
              (forall i :: 0 <= i < shown ==> row.avatars[i] == AvatarFor(store, members.value[i])) &&
              (n > MaxShown ==> row.avatars[MaxShown] == Overflow("+" + Text.DecimalString(n - MaxShown)))
  {
    match members
    case None => NoTeamMembers
    case Some(ids) =>
      if |ids| == 0 then NoTeamMembers
      else
        var firstIds := SliceTo(ids, MaxShown);
        var avatars := seq(|firstIds|, i requires 0 <= i < |firstIds| => AvatarFor(store, firstIds[i]));
        Avatars(avatars + if |ids| > MaxShown then [Overflow("+" + Text.DecimalString(|ids| - MaxShown))] else [])
  }

  /** The overflow badge is drawn only past three members, and its number
      and the three drawn avatars account for every member exactly. */
  lemma {:induction false} OverflowCountsHiddenMembers(store: MockData.Store, members: seq<string>)
    requires |members| > 0
    ensures var row := MemberRowFor(store, Some(members));
      (exists i :: 0 <= i < |row.avatars| && row.avatars[i].Overflow?) <==> |members| > MaxShown
    ensures var row := MemberRowFor(store, Some(members));
      |members| > MaxShown ==>
        row.avatars[MaxShown].text[0] == '+' &&
        MaxShown + Text.DecimalValue(row.avatars[MaxShown].text[1..]) == |members|
  {
    var row := MemberRowFor(store, Some(members));
    var n := |members|;
    if n > MaxShown {
      var digits := Text.DecimalString(n - MaxShown);
      assert row.avatars[MaxShown].text == "+" + digits;
      assert ("+" + digits)[1..] == digits;
      Text.DecimalRoundTrip(n - MaxShown);
    } else {
      forall i | 0 <= i < |row.avatars| ensures !row.avatars[i].Overflow? {
        assert row.avatars[i].MemberAvatar?;
      }
    }
  }

  /** The optional `onDelete` prop, as the identity of the parent's handler. */
  datatype Callback = Callback(handler: string)

  /** `handleDelete`: the calls it makes, which are one call to `onDelete`
      when it is provided and none otherwise. */
  function HandleDelete(onDelete: Option<Callback>): (calls: seq<Callback>)
    ensures |calls| <= 1
    ensures calls == [] <==> onDelete.None?
    ensures onDelete.Some? ==> calls == [onDelete.value]
  {
    match onDelete
    case Some(cb) => [cb]
    case None => []
  }
}
