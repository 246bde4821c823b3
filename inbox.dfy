/** The logic of the chat page `client/src/pages/inbox.tsx`: the list of people
    to start a chat with, which cached queries a pushed message refreshes, the
    file picker's size check and the two halves of sending a message (before
    and after the request). The server's answer is a parameter. */
module Inbox {
  import opened Common
  import opened Schema
  import opened Storage

  // ---------------------------------------------------------------------------
  // The people list
  // ---------------------------------------------------------------------------

  /** The first filter: the name or the username includes the query, ignoring case. */
  predicate MatchesQuery(u: User, query: string)
  {
    IncludesIgnoringCase(u.name, query) || IncludesIgnoringCase(u.username, query)
  }

  function QueryFilter(query: string): User -> bool
  {
    (u: User) => MatchesQuery(u, query)
  }

  /** The second filter: `user.id !== currentUserId`, where a signed-out page
      has no id and so excludes nobody. */
  predicate NotCurrent(u: User, currentUserId: Option<string>)
  {
    currentUserId.None? || u.id != currentUserId.value
  }

  function CurrentFilter(currentUserId: Option<string>): User -> bool
  {
    (u: User) => NotCurrent(u, currentUserId)
  }

  function ListedFilter(query: string, currentUserId: Option<string>): User -> bool
  {
    (u: User) => MatchesQuery(u, query) && NotCurrent(u, currentUserId)
  }

  /** `filteredUsers`: the two filters applied one after the other. */
  function FilteredUsers(allUsers: seq<User>, query: string, currentUserId: Option<string>): (r: seq<User>)
    ensures forall u :: u in r <==> u in allUsers && MatchesQuery(u, query) && NotCurrent(u, currentUserId)
    ensures currentUserId.Some? ==> forall i | 0 <= i < |r| :: r[i].id != currentUserId.value
    ensures r == Filter(allUsers, ListedFilter(query, currentUserId))
  {
    var r := Filter(Filter(allUsers, QueryFilter(query)), CurrentFilter(currentUserId));
    FilterTwice(allUsers, QueryFilter(query), CurrentFilter(currentUserId), ListedFilter(query, currentUserId));
    r
  }

  /** The list keeps the order of `allUsers`. */
  lemma FilteredUsersKeepOrder(allUsers: seq<User>, query: string, currentUserId: Option<string>)
    ensures IsSubsequence(FilteredUsers(allUsers, query, currentUserId), allUsers)
  {
  }

  /** With an empty search box everyone but the current user is listed. */
  lemma EmptyQueryListsEveryoneElse(allUsers: seq<User>, currentUserId: Option<string>)
    ensures FilteredUsers(allUsers, "", currentUserId) == Filter(allUsers, CurrentFilter(currentUserId))
  {
    forall i | 0 <= i < |allUsers|
      ensures QueryFilter("")(allUsers[i])
    {
      ContainsEmpty(ToLower(allUsers[i].name));
    }
    FilterKeepsAll(allUsers, QueryFilter(""));
  }

  // ---------------------------------------------------------------------------
  // Refreshing after a pushed message
  // ---------------------------------------------------------------------------

  /** The cached queries of the page: `['messages', chat]` and `['conversations']`. */
  datatype QueryKey = MessagesWith(chat: string) | ConversationList

  /** The `new_message` handler: the open chat is refreshed when the message was
      sent by or to it (an empty id selects nothing), the conversation list
      always. */
  function NewMessageInvalidations(selectedChat: Option<string>, senderId: string, receiverId: string): (keys: seq<QueryKey>)
    ensures ConversationList in keys
    ensures forall c :: MessagesWith(c) in keys <==>
      selectedChat == Some(c) && c != "" && (senderId == c || receiverId == c)
    ensures |keys| <= 2
  {
    if selectedChat.Some? && selectedChat.value != "" && (senderId == selectedChat.value || receiverId == selectedChat.value)
    then [MessagesWith(selectedChat.value), ConversationList]
    else [ConversationList]
  }

  // ---------------------------------------------------------------------------
  // The composer
  // ---------------------------------------------------------------------------

  /** The multipart form posted to `/api/messages`. */
  datatype OutgoingForm = OutgoingForm(receiverId: string, content: Option<string>, media: Option<LocalFile>)

  const FileTooLarge := "File size must be less than 10MB"
  const SendFailed := "Failed to send message"

  /** The state of the composer: the text box, the chosen file, the open chat,
      the `isUploading` flag, the alerts shown and the queries refreshed. A
      send in flight is `pending`. */
  class InboxPage {
    var newMessage: string
    var selectedFile: Option<LocalFile>
    var selectedChat: Option<string>
    var isUploading: bool
    var pending: Option<OutgoingForm>
    var alerts: seq<string>
    var refreshed: seq<QueryKey>

    /** A request is in flight exactly while the page says it is uploading. */
    ghost predicate Valid()
      reads this
    {
      isUploading <==> pending.Some?
    }

    constructor()
      ensures newMessage == "" && selectedFile.None? && selectedChat.None?
      ensures !isUploading && pending.None? && alerts == [] && refreshed == []
      ensures Valid()
    {
      newMessage := "";
      selectedFile := None;
      selectedChat := None;
      isUploading := false;
      pending := None;
      alerts := [];
      refreshed := [];
    }

    /** `handleFileSelect`: no file changes nothing; a file over 10 MB raises
        an alert and is not taken; any other file becomes the selection. */
    method HandleFileSelect(file: Option<LocalFile>)
      modifies this
      ensures file.None? ==> selectedFile == old(selectedFile) && alerts == old(alerts)
      ensures file.Some? && file.value.size > MaxFileBytes ==>
        selectedFile == old(selectedFile) && alerts == old(alerts) + [FileTooLarge]
      ensures file.Some? && file.value.size <= MaxFileBytes ==>
        selectedFile == file && alerts == old(alerts)
      ensures newMessage == old(newMessage) && selectedChat == old(selectedChat)
      ensures isUploading == old(isUploading) && pending == old(pending) && refreshed == old(refreshed)
    {
      if file.None? {
        return;
      }
      if file.value.size > MaxFileBytes {
        alerts := alerts + [FileTooLarge];
        return;
      }
      selectedFile := file;
    }

    /** The first half of `sendMessage`, up to the request: nothing happens
        without text or a file, without an open chat, or while a send is in
        flight; otherwise the form carries the open chat, the trimmed text when
        it is not blank, and the chosen file. */
    method SendMessage() returns (form: Option<OutgoingForm>)
      requires Valid()
      modifies this
      ensures Valid()
      ensures
        var text := Trim(old(newMessage));
        if (text == "" && old(selectedFile).None?) || old(selectedChat).None? || old(selectedChat).value == "" || old(isUploading) then
          form.None? && isUploading == old(isUploading) && pending == old(pending)
        else
          && form == Some(OutgoingForm(old(selectedChat).value, if text != "" then Some(text) else None, old(selectedFile)))
          && isUploading && pending == form
      ensures newMessage == old(newMessage) && selectedFile == old(selectedFile) && selectedChat == old(selectedChat)
      ensures alerts == old(alerts) && refreshed == old(refreshed)
    {
      var text := Trim(newMessage);
      if (text == "" && selectedFile.None?) || selectedChat.None? || selectedChat.value == "" || isUploading {
        return None;
      }
      isUploading := true;
      form := Some(OutgoingForm(selectedChat.value, if text != "" then Some(text) else None, selectedFile));
      pending := form;
    }

    /** The second half, once the server has answered: a success clears the
        text and the file and refreshes the chat the form was sent to and the
        conversation list; a failure raises an alert. Either way the upload is
        over. */
    method FinishSend(ok: bool)
      requires Valid() && pending.Some?
      modifies this
      ensures Valid() && !isUploading && pending.None?
      ensures ok ==>
        && newMessage == "" && selectedFile.None? && alerts == old(alerts)
        && refreshed == old(refreshed) + [MessagesWith(old(pending).value.receiverId), ConversationList]
      ensures !ok ==>
        && newMessage == old(newMessage) && selectedFile == old(selectedFile)
        && alerts == old(alerts) + [SendFailed] && refreshed == old(refreshed)
      ensures selectedChat == old(selectedChat)
    {
      var chat := pending.value.receiverId;
      if ok {
        newMessage := "";
        selectedFile := None;
        refreshed := refreshed + [MessagesWith(chat), ConversationList];
      } else {
        alerts := alerts + [SendFailed];
      }
      isUploading := false;
      pending := None;
    }
  }

  /** What `SendMessage` builds: a form for a chat, with text that is not blank
      and has no white space at its ends, or with a file. */
  ghost predicate WellFormed(form: OutgoingForm)
  {
    && form.receiverId != ""
    && (form.content.Some? || form.media.Some?)
    && (form.content.Some? ==> form.content.value != "" && form.content.value == Trim(form.content.value))
  }

  /** Trimming twice changes nothing. */
  lemma {:induction false} TrimIdempotent(s: string)
    ensures Trim(Trim(s)) == Trim(s)
  {
    var t := Trim(s);
    if t != [] {
      assert TrimStart(t) == t;
      assert TrimEnd(t) == t;
    }
  }

  /** Every form the composer sends is well formed. */
  lemma SentFormsAreWellFormed(text: string, file: Option<LocalFile>, chat: string)
    requires Trim(text) != "" || file.Some?
    requires chat != ""
    ensures WellFormed(OutgoingForm(chat, if Trim(text) != "" then Some(Trim(text)) else None, file))
  {
    TrimIdempotent(text);
  }

  /** A form with text passes the server's message schema whatever becomes of
      the file: the client and the server agree that text alone is a message. */
  lemma FormWithTextAccepted(form: OutgoingForm, mediaUrl: Option<string>)
    requires WellFormed(form) && form.content.Some?
    ensures MessageIssues(Some(form.receiverId), OrNull(form.content), mediaUrl) == []
  {
  }
}
