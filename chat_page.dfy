/** `frontend/src/components/Chat/ChatPage.tsx`: the group-chat page. Its state hooks are
    the fields of a `Page`; the three user and member lists it shows are filters over that
    state; the handlers guard against a missing channel or an empty selection, and reset
    parts of the state when the chat service answers. What the chat service answers is a
    parameter of each handler. */
module ChatPage {
  import opened Wrappers
  import Text
  import Seqs

  /** A user of the chat application, or a member of a channel. */
  datatype User = User(userId: string, email: Option<string>, nickname: Option<string>)

  datatype Channel = Channel(url: string, name: string)

  datatype Message = Message(messageId: nat, sender: Option<User>, text: string)

  // ---------------------------------------------------------------------------------
  // The search filters
  // ---------------------------------------------------------------------------------

  /** What the user lists are searched by: the e-mail address, or the user id when there
      is none. */
  function SearchKey(u: User): string {
    Text.OrElse(u.email, u.userId)
  }

  /** What the member list is searched by: the nickname, or the user id when there is
      none. */
  function MemberKey(m: User): string {
    Text.OrElse(m.nickname, m.userId)
  }

  /** `key.toLowerCase().includes(search.toLowerCase())`. */
  predicate Matches(key: string, search: string) {
    Text.Contains(Text.ToLower(key), Text.ToLower(search))
  }

  function KeyMatches(search: string): User -> bool {
    (u: User) => Matches(SearchKey(u), search)
  }

  function MemberMatches(search: string): User -> bool {
    (m: User) => Matches(MemberKey(m), search)
  }

  /** `channelMembers.find(m => m.userId === userId)` finds a member. */
  predicate IsMember(members: seq<User>, userId: string) {
    exists j :: 0 <= j < |members| && members[j].userId == userId
  }

  function NotMember(members: seq<User>): User -> bool {
    (u: User) => !IsMember(members, u.userId)
  }

  /** `filteredCreateUsers`: the users the "new group chat" form offers, in their order. */
  function FilteredCreateUsers(allUsers: seq<User>, searchEmail: string): (r: seq<User>)
    ensures Seqs.IsSubsequence(r, allUsers)
    ensures forall i :: 0 <= i < |r| ==> Matches(SearchKey(r[i]), searchEmail)
    ensures forall i :: 0 <= i < |allUsers| && Matches(SearchKey(allUsers[i]), searchEmail)
              ==> allUsers[i] in r
  {
    Seqs.FilterMembers(allUsers, KeyMatches(searchEmail));
    Seqs.Filter(allUsers, KeyMatches(searchEmail))
  }

  /** `filteredAddUsers`: the users the "add users" dialog offers; none of them is a
      member of the channel already. */
  function FilteredAddUsers(allUsers: seq<User>, members: seq<User>, addSearch: string): (r: seq<User>)
    ensures Seqs.IsSubsequence(r, allUsers)
    ensures forall i :: 0 <= i < |r| ==> !IsMember(members, r[i].userId)
    ensures forall i :: 0 <= i < |r| ==> Matches(SearchKey(r[i]), addSearch)
    ensures forall i ::
              (0 <= i < |allUsers| && !IsMember(members, allUsers[i].userId) &&
               Matches(SearchKey(allUsers[i]), addSearch)) ==> allUsers[i] in r
  {
    AddListFacts(allUsers, members, addSearch);
    Seqs.Filter(Seqs.Filter(allUsers, NotMember(members)), KeyMatches(addSearch))
  }

  lemma AddListFacts(allUsers: seq<User>, members: seq<User>, addSearch: string)
    ensures var outside := Seqs.Filter(allUsers, NotMember(members));
            var r := Seqs.Filter(outside, KeyMatches(addSearch));
            && Seqs.IsSubsequence(r, allUsers)
            && (forall u :: u in r ==> u in outside && KeyMatches(addSearch)(u))
            && (forall u :: u in outside ==> NotMember(members)(u))
            && (forall u :: u in allUsers && NotMember(members)(u) ==> u in outside)
            && (forall u :: u in outside && KeyMatches(addSearch)(u) ==> u in r)
  {
    var outside := Seqs.Filter(allUsers, NotMember(members));
    var r := Seqs.Filter(outside, KeyMatches(addSearch));
    Seqs.FilterMembers(allUsers, NotMember(members));
    Seqs.FilterMembers(outside, KeyMatches(addSearch));
    Seqs.SubsequenceTrans(r, outside, allUsers);
  }

  /** `filteredMembers`: the members the members panel shows. */
  function FilteredMembers(members: seq<User>, memberSearch: string): (r: seq<User>)
    ensures Seqs.IsSubsequence(r, members)
    ensures forall i :: 0 <= i < |r| ==> Matches(MemberKey(r[i]), memberSearch)
    ensures forall i :: 0 <= i < |members| && Matches(MemberKey(members[i]), memberSearch)
              ==> members[i] in r
  {
    Seqs.FilterMembers(members, MemberMatches(memberSearch));
    Seqs.Filter(members, MemberMatches(memberSearch))
  }

  /** Every key matches the empty search. */
  lemma EmptySearchMatches(key: string)
    ensures Matches(key, "")
  {
    assert Text.ToLower("") == "";
    Text.ContainsEmpty(Text.ToLower(key));
  }

  /** An empty search shows every user, every non-member and every member. */
  lemma EmptySearchShowsAll(allUsers: seq<User>, members: seq<User>)
    ensures FilteredCreateUsers(allUsers, "") == allUsers
    ensures FilteredAddUsers(allUsers, members, "") == Seqs.Filter(allUsers, NotMember(members))
    ensures FilteredMembers(members, "") == members
  {
    forall key: string ensures Matches(key, "") {
      EmptySearchMatches(key);
    }
    Seqs.FilterAll(allUsers, KeyMatches(""));
    Seqs.FilterAll(Seqs.Filter(allUsers, NotMember(members)), KeyMatches(""));
    Seqs.FilterAll(members, MemberMatches(""));
  }

  /** The search ignores the case of what is typed: a lower-cased search shows the same
      users. */
  lemma SearchIgnoresCase(allUsers: seq<User>, search: string)
    ensures FilteredCreateUsers(allUsers, Text.ToLower(search)) == FilteredCreateUsers(allUsers, search)
  {
    Text.ToLowerIdempotent(search);
    Seqs.FilterSameTest(allUsers, KeyMatches(Text.ToLower(search)), KeyMatches(search));
  }

  /** Once every user is a member, the "add users" dialog offers nobody. */
  lemma EveryoneMemberNothingToAdd(allUsers: seq<User>, members: seq<User>, addSearch: string)
    requires forall i :: 0 <= i < |allUsers| ==> IsMember(members, allUsers[i].userId)
    ensures FilteredAddUsers(allUsers, members, addSearch) == []
  {
    Seqs.FilterNone(allUsers, NotMember(members));
  }

  // ---------------------------------------------------------------------------------
  // Selection checkboxes
  // ---------------------------------------------------------------------------------

  function NotId(userId: string): string -> bool {
    (id: string) => id != userId
  }

  /** A checkbox change: ticking appends the user id, unticking removes every
      occurrence of it and keeps the other ids in their order. */
  function Toggle(current: seq<string>, userId: string, checked: bool): (r: seq<string>)
    ensures checked ==> r == current + [userId]
    ensures !checked ==> userId !in r && Seqs.IsSubsequence(r, current)
    ensures !checked ==> forall i :: 0 <= i < |current| && current[i] != userId ==> current[i] in r
  {
    if checked then current + [userId]
    else
      Seqs.FilterMembers(current, NotId(userId));
      Seqs.Filter(current, NotId(userId))
  }

  /** Unticking a user that was just ticked gives back the selection from before. */
  lemma {:induction false} UntickUndoesTick(current: seq<string>, userId: string)
    requires userId !in current
    ensures Toggle(Toggle(current, userId, true), userId, false) == current
  {
    Seqs.FilterAppend(current, [userId], NotId(userId));
    Seqs.FilterAll(current, NotId(userId));
    assert Seqs.Filter([userId], NotId(userId)) == [];
  }

  /** Unticking twice is unticking once. */
  lemma UntickIdempotent(current: seq<string>, userId: string)
    ensures Toggle(Toggle(current, userId, false), userId, false) == Toggle(current, userId, false)
  {
    var r := Toggle(current, userId, false);
    Seqs.FilterAll(r, NotId(userId));
  }

  // ---------------------------------------------------------------------------------
  // The page state and its handlers
  // ---------------------------------------------------------------------------------

  /** Every state hook of the page at one moment. */
  datatype Snapshot = Snapshot(
    channels: seq<Channel>, currentChannel: Option<Channel>, messages: seq<Message>, message: string,
    showCreateModal: bool, newChannelName: string, searchEmail: string,
    selectedUserIds: seq<string>, channelMembers: seq<User>,
    showAddModal: bool, addSearch: string, addSelectedIds: seq<string>,
    allUsers: seq<User>, memberSearch: string)

  /** What `createGroupChannel` asks the chat service for. */
  datatype ChannelRequest = ChannelRequest(name: string, userIds: seq<string>, isDistinct: bool)

  class Page {
    var channels: seq<Channel>
    var currentChannel: Option<Channel>
    var messages: seq<Message>
    var message: string
    var showCreateModal: bool
    var newChannelName: string
    var searchEmail: string
    var selectedUserIds: seq<string>
    var channelMembers: seq<User>
    var showAddModal: bool
    var addSearch: string
    var addSelectedIds: seq<string>
    var allUsers: seq<User>
    var memberSearch: string

    function Current(): Snapshot
      reads this
    {
      Snapshot(channels, currentChannel, messages, message, showCreateModal, newChannelName,
               searchEmail, selectedUserIds, channelMembers, showAddModal, addSearch,
               addSelectedIds, allUsers, memberSearch)
    }

    /** The initial values of the state hooks. */
    constructor ()
      ensures Current() == Snapshot([], None, [], "", false, "", "", [], [], false, "", [], [], "")
    {
      channels := [];
      currentChannel := None;
      messages := [];
      message := "";
      showCreateModal := false;
      newChannelName := "";
      searchEmail := "";
      selectedUserIds := [];
      channelMembers := [];
      showAddModal := false;
      addSearch := "";
      addSelectedIds := [];
      allUsers := [];
      memberSearch := "";
    }

    /** `fetchChannels`: the channel list the service answers replaces the shown one; an
        error leaves it as it was. */
    method FetchChannels(answer: Option<seq<Channel>>)
      modifies this
      ensures answer.Some? ==> Current() == old(Current()).(channels := answer.value)
      ensures answer.None? ==> Current() == old(Current())
    {
      if answer.Some? {
        channels := answer.value;
      }
    }

    /** `fetchAllUsers`: the application's users replace the known ones; an error leaves
        them as they were. */
    method FetchAllUsers(answer: Option<seq<User>>)
      modifies this
      ensures answer.Some? ==> Current() == old(Current()).(allUsers := answer.value)
      ensures answer.None? ==> Current() == old(Current())
    {
      if answer.Some? {
        allUsers := answer.value;
      }
    }

    /** `openChannel`: the channel becomes current at once; its last messages replace
        the shown ones (none when loading them fails), and its members replace the shown
        members when they arrive. */
    method OpenChannel(ch: Channel, loaded: Option<seq<Message>>, members: Option<seq<User>>)
      modifies this
      ensures Current() == old(Current()).(
                currentChannel := Some(ch),
                messages := if loaded.Some? then loaded.value else [],
                channelMembers := if members.Some? then members.value else old(channelMembers))
    {
      currentChannel := Some(ch);
      messages := if loaded.Some? then loaded.value else [];
      if members.Some? {
        channelMembers := members.value;
      }
    }

    /** `sendMessage`: nothing happens when the typed text is blank or no channel is
        open; otherwise the untrimmed text is sent, and once the service accepts it the
        message is appended and the input cleared. */
    method SendMessage(accepted: Result<Message, string>) returns (sent: Option<string>)
      modifies this
      ensures sent.None? <==> Text.Trim(old(message)) == "" || old(currentChannel).None?
      ensures sent.Some? ==> sent.value == old(message)
      ensures sent.None? || accepted.Failure? ==> Current() == old(Current())
      ensures sent.Some? && accepted.Success? ==>
                Current() == old(Current()).(messages := old(messages) + [accepted.value], message := "")
    {
      if Text.Trim(message) == "" || currentChannel.None? {
        return None;
      }
      sent := Some(message);
      if accepted.Success? {
        messages := messages + [accepted.value];
        message := "";
      }
    }

    /** A tick or untick in the "new group chat" form. */
    method ToggleCreateSelection(userId: string, checked: bool)
      modifies this
      ensures Current() == old(Current()).(selectedUserIds := Toggle(old(selectedUserIds), userId, checked))
    {
      selectedUserIds := Toggle(selectedUserIds, userId, checked);
    }

    /** A tick or untick in the "add users" dialog. */
    method ToggleAddSelection(userId: string, checked: bool)
      modifies this
      ensures Current() == old(Current()).(addSelectedIds := Toggle(old(addSelectedIds), userId, checked))
    {
      addSelectedIds := Toggle(addSelectedIds, userId, checked);
    }

    /** `createGroupChannel`: nothing happens without a name or without a selected user;
        otherwise a non-distinct channel is requested with the name and the selection,
        and once it is created the form is closed and cleared and the new channel is
        opened as `OpenChannel` opens it, with its messages and members as loaded. */
    method CreateGroupChannel(created: Result<Channel, string>, loaded: Option<seq<Message>>,
                              members: Option<seq<User>>) returns (request: Option<ChannelRequest>)
      modifies this
      ensures request.None? <==> old(newChannelName) == "" || old(selectedUserIds) == []
      ensures request.Some? ==> request.value == ChannelRequest(old(newChannelName), old(selectedUserIds), false)
      ensures request.None? || created.Failure? ==> Current() == old(Current())
      ensures request.Some? && created.Success? ==>
                Current() == old(Current()).(showCreateModal := false, newChannelName := "",
                                             selectedUserIds := [], currentChannel := Some(created.value),
                                             messages := if loaded.Some? then loaded.value else [],
                                             channelMembers := if members.Some? then members.value
                                                               else old(channelMembers))
    {
      if newChannelName == "" || |selectedUserIds| == 0 {
        return None;
      }
      request := Some(ChannelRequest(newChannelName, selectedUserIds, false));
      if created.Success? {
        showCreateModal := false;
        newChannelName := "";
        selectedUserIds := [];
        OpenChannel(created.value, loaded, members);
      }
    }

    /** `deleteGroupChannel`: with a channel open and the deletion confirmed, a successful
        deletion leaves no channel, no messages and no members; otherwise nothing
        changes. */
    method DeleteGroupChannel(confirmed: bool, deleted: bool) returns (requested: bool)
      modifies this
      ensures requested <==> old(currentChannel).Some? && confirmed
      ensures requested && deleted ==>
                Current() == old(Current()).(currentChannel := None, messages := [], channelMembers := [])
      ensures !(requested && deleted) ==> Current() == old(Current())
    {
      if currentChannel.None? || !confirmed {
        return false;
      }
      requested := true;
      if deleted {
        currentChannel := None;
        messages := [];
        channelMembers := [];
      }
    }

    /** `removeUser`: nothing happens without an open channel; otherwise the user is
        removed, and once the new member list arrives it replaces the shown one. */
    method RemoveUser(uid: string, members: Option<seq<User>>) returns (removed: Option<string>)
      modifies this
      ensures removed.None? <==> old(currentChannel).None?
      ensures removed.Some? ==> removed.value == uid
      ensures removed.None? || members.None? ==> Current() == old(Current())
      ensures removed.Some? && members.Some? ==> Current() == old(Current()).(channelMembers := members.value)
    {
      if currentChannel.None? {
        return None;
      }
      removed := Some(uid);
      if members.Some? {
        channelMembers := members.value;
      }
    }

    /** `openAddModal`: the dialog opens with an empty search and an empty selection. */
    method OpenAddModal()
      modifies this
      ensures Current() == old(Current()).(showAddModal := true, addSearch := "", addSelectedIds := [])
      ensures FilteredAddUsers(allUsers, channelMembers, addSearch) ==
              Seqs.Filter(allUsers, NotMember(channelMembers))
    {
      showAddModal := true;
      addSearch := "";
      addSelectedIds := [];
      EmptySearchShowsAll(allUsers, channelMembers);
    }

    /** `handleAddSubmit`: nothing happens without an open channel or without a selected
        user; otherwise the selection is invited, and once the new member list arrives it
        replaces the shown one and the dialog closes. The selection itself is kept. */
    method HandleAddSubmit(members: Option<seq<User>>) returns (invited: Option<seq<string>>)
      modifies this
      ensures invited.None? <==> old(currentChannel).None? || old(addSelectedIds) == []
      ensures invited.Some? ==> invited.value == old(addSelectedIds)
      ensures invited.None? || members.None? ==> Current() == old(Current())
      ensures invited.Some? && members.Some? ==>
                Current() == old(Current()).(channelMembers := members.value, showAddModal := false)
    {
      if currentChannel.None? || |addSelectedIds| == 0 {
        return None;
      }
      invited := Some(addSelectedIds);
      if members.Some? {
        channelMembers := members.value;
        showAddModal := false;
      }
    }
  }
}
