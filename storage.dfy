/** The data layer of `server/storage.ts`, over in-memory tables: the lookups,
    the message queries behind the inbox, reactions, the one-shot codes of
    the user rows, and user search. Each query is a function of the table
    contents; `Database` holds the tables and performs the writes. */
module Storage {
  import opened Common
  import opened Schema

  // ---------------------------------------------------------------------------
  // Row selectors
  // ---------------------------------------------------------------------------

  function HasId(id: string): User -> bool
  {
    (u: User) => u.id == id
  }

  function HasEmail(email: string): User -> bool
  {
    (u: User) => u.email == email
  }

  function HasUsername(username: string): User -> bool
  {
    (u: User) => u.username == username
  }

  function HasIdentifier(identifier: string): User -> bool
  {
    (u: User) => u.email == identifier || u.username == identifier
  }

  // ---------------------------------------------------------------------------
  // User lookups (getUser, getUserByEmail, getUserByUsername, getUserByIdentifier)
  // ---------------------------------------------------------------------------

  function UserById(users: seq<User>, id: string): (r: Option<User>)
    ensures r.Some? ==> r.value in users && r.value.id == id
    ensures r.None? <==> forall i | 0 <= i < |users| :: users[i].id != id
  {
    Find(users, HasId(id))
  }

  function UserByEmail(users: seq<User>, email: string): (r: Option<User>)
    ensures r.Some? ==> r.value in users && r.value.email == email
    ensures r.None? <==> forall i | 0 <= i < |users| :: users[i].email != email
  {
    Find(users, HasEmail(email))
  }

  function UserByUsername(users: seq<User>, username: string): (r: Option<User>)
    ensures r.Some? ==> r.value in users && r.value.username == username
    ensures r.None? <==> forall i | 0 <= i < |users| :: users[i].username != username
  {
    Find(users, HasUsername(username))
  }

  /** The login lookup: a user whose email or whose username is the identifier. */
  function UserByIdentifier(users: seq<User>, identifier: string): (r: Option<User>)
    ensures r.Some? ==> r.value in users && (r.value.email == identifier || r.value.username == identifier)
    ensures r.None? <==>
      forall i | 0 <= i < |users| :: users[i].email != identifier && users[i].username != identifier
  {
    Find(users, HasIdentifier(identifier))
  }

  // ---------------------------------------------------------------------------
  // Messages (getMessages, createMessage)
  // ---------------------------------------------------------------------------

  /** A message row with its sender's name and username, as the inner join
      with `users` returns it. */
  datatype MessageWithSender = MessageWithSender(message: Message, senderName: string, senderUsername: string)

  function Attach(m: Message, sender: User): MessageWithSender
  {
    MessageWithSender(m, sender.name, sender.username)
  }

  predicate Between(m: Message, a: string, b: string)
  {
    (m.senderId == a && m.receiverId == b) || (m.senderId == b && m.receiverId == a)
  }

  function InPair(a: string, b: string): Message -> bool
  {
    (m: Message) => Between(m, a, b)
  }

  /** The messages whose sender has a row. */
  function HasSender(users: seq<User>): Message -> bool
  {
    (m: Message) => UserById(users, m.senderId).Some?
  }

  /** The join's first step: the head message, with its sender if it has one. */
  function JoinOne(users: seq<User>, head: Message): seq<MessageWithSender>
  {
    var sender := UserById(users, head.senderId);
    if sender.Some? then [Attach(head, sender.value)] else []
  }

  /** `messages INNER JOIN users ON sender_id = users.id`: a message whose sender
      has no row is dropped, and every other message gives exactly one row, in
      order, carrying its sender's names. */
  function JoinSenders(users: seq<User>, msgs: seq<Message>): (r: seq<MessageWithSender>)
    ensures |r| == |Filter(msgs, HasSender(users))|
    ensures forall i | 0 <= i < |r| ::
      r[i] == Attach(Filter(msgs, HasSender(users))[i], UserById(users, Filter(msgs, HasSender(users))[i].senderId).value)
    ensures forall x | x in r ::
      x.message in msgs && UserById(users, x.message.senderId).Some?
      && x == Attach(x.message, UserById(users, x.message.senderId).value)
    ensures forall m | m in msgs && UserById(users, m.senderId).Some? ::
      Attach(m, UserById(users, m.senderId).value) in r
  {
    if msgs == [] then []
    else
      assert msgs == [msgs[0]] + msgs[1..];
      JoinOne(users, msgs[0]) + JoinSenders(users, msgs[1..])
  }

  predicate CreatedLe(x: MessageWithSender, y: MessageWithSender)
  {
    x.message.createdAt <= y.message.createdAt
  }

  /** `getMessages(a, b)`: the messages exchanged between `a` and `b` in either
      direction, oldest first (see MessagesBetweenSpec). */
  function MessagesBetween(users: seq<User>, msgs: seq<Message>, a: string, b: string): seq<MessageWithSender>
  {
    SortBy(JoinSenders(users, Filter(msgs, InPair(a, b))), CreatedLe)
  }

  lemma CreatedLeTotal()
    ensures TotalPreorder(CreatedLe)
  {
  }

  /** The conversation holds exactly the messages between the two users whose
      sender has a row, each with its sender's names, in ascending `createdAt`. */
  lemma MessagesBetweenSpec(users: seq<User>, msgs: seq<Message>, a: string, b: string)
    ensures Sorted(MessagesBetween(users, msgs, a, b), CreatedLe)
    ensures forall x | x in MessagesBetween(users, msgs, a, b) ::
      x.message in msgs && Between(x.message, a, b) && UserById(users, x.message.senderId).Some?
      && x == Attach(x.message, UserById(users, x.message.senderId).value)
    ensures forall m | m in msgs && Between(m, a, b) && UserById(users, m.senderId).Some? ::
      Attach(m, UserById(users, m.senderId).value) in MessagesBetween(users, msgs, a, b)
    ensures |MessagesBetween(users, msgs, a, b)| == |Filter(Filter(msgs, InPair(a, b)), HasSender(users))|
    ensures multiset(MessagesBetween(users, msgs, a, b)) == multiset(JoinSenders(users, Filter(msgs, InPair(a, b))))
  {
    var joined := JoinSenders(users, Filter(msgs, InPair(a, b)));
    var r := MessagesBetween(users, msgs, a, b);
    CreatedLeTotal();
    SortBySorted(joined, CreatedLe);
    assert forall x :: x in r <==> x in joined by {
      forall x
        ensures x in r <==> x in joined
      {
        assert x in r <==> x in multiset(r);
        assert x in joined <==> x in multiset(joined);
      }
    }
  }

  lemma JoinOneCount(users: seq<User>, head: Message, m: Message)
    requires UserById(users, m.senderId).Some?
    ensures multiset(JoinOne(users, head))[Attach(m, UserById(users, m.senderId).value)] == if head == m then 1 else 0
  {
    var x := Attach(m, UserById(users, m.senderId).value);
    if head != m && UserById(users, head.senderId).Some? {
      assert JoinOne(users, head)[0].message != x.message;
    }
  }

  /** The join keeps each message as many times as the table holds it. */
  lemma {:induction false} JoinSendersCount(users: seq<User>, msgs: seq<Message>, m: Message)
    requires UserById(users, m.senderId).Some?
    ensures multiset(JoinSenders(users, msgs))[Attach(m, UserById(users, m.senderId).value)] == multiset(msgs)[m]
  {
    if msgs != [] {
      assert msgs == [msgs[0]] + msgs[1..];
      JoinOneCount(users, msgs[0], m);
      JoinSendersCount(users, msgs[1..], m);
    }
  }

  /** Each message of the pair whose sender has a row appears in the history
      exactly as often as in the table: nothing is lost or repeated. */
  lemma HistoryCount(users: seq<User>, msgs: seq<Message>, a: string, b: string, m: Message)
    requires Between(m, a, b) && UserById(users, m.senderId).Some?
    ensures multiset(MessagesBetween(users, msgs, a, b))[Attach(m, UserById(users, m.senderId).value)] == multiset(msgs)[m]
  {
    MessagesBetweenSpec(users, msgs, a, b);
    JoinSendersCount(users, Filter(msgs, InPair(a, b)), m);
  }

  /** `getMessages(a, b)` and `getMessages(b, a)` return the same list. */
  lemma MessagesBetweenSymmetric(users: seq<User>, msgs: seq<Message>, a: string, b: string)
    ensures MessagesBetween(users, msgs, a, b) == MessagesBetween(users, msgs, b, a)
  {
    FilterCongruence(msgs, InPair(a, b), InPair(b, a));
  }

  /** `content || null` and the like: an absent or empty string is stored as null. */
  function OrNull(v: Option<string>): (r: Option<string>)
    ensures r.Some? <==> v.Some? && v.value != ""
    ensures r.Some? ==> r == v
  {
    if v.Some? && v.value != "" then v else None
  }

  /** The row `createMessage` inserts: unread, stamped with the current time. */
  function NewMessage(id: string, senderId: string, receiverId: string, content: Option<string>,
                      mediaUrl: Option<string>, mediaType: Option<string>, fileName: Option<string>,
                      now: int): Message
  {
    Message(id, senderId, receiverId, OrNull(content), OrNull(mediaUrl), OrNull(mediaType), OrNull(fileName), now, None)
  }

  /** A stored message from a sender with a row appears in the conversation of
      its two ends. */
  lemma SentMessageListed(users: seq<User>, msgs: seq<Message>, m: Message)
    requires UserById(users, m.senderId).Some?
    ensures Attach(m, UserById(users, m.senderId).value) in MessagesBetween(users, msgs + [m], m.senderId, m.receiverId)
    ensures Attach(m, UserById(users, m.senderId).value) in MessagesBetween(users, msgs + [m], m.receiverId, m.senderId)
  {
    assert m in msgs + [m];
    MessagesBetweenSpec(users, msgs + [m], m.senderId, m.receiverId);
    MessagesBetweenSymmetric(users, msgs + [m], m.senderId, m.receiverId);
  }

  // ---------------------------------------------------------------------------
  // Conversations (getConversations)
  // ---------------------------------------------------------------------------

  predicate Involves(m: Message, u: string)
  {
    m.senderId == u || m.receiverId == u
  }

  /** `CASE WHEN sender_id = u THEN receiver_id ELSE sender_id END`. */
  function Counterpart(m: Message, u: string): string
  {
    if m.senderId == u then m.receiverId else m.senderId
  }

  ghost predicate IsPartner(msgs: seq<Message>, u: string, c: string)
  {
    exists i | 0 <= i < |msgs| :: Involves(msgs[i], u) && Counterpart(msgs[i], u) == c
  }

  /** `SELECT DISTINCT` counterparts of `u`, in order of first appearance (the
      order the database returns them in is not specified). */
  function Partners(msgs: seq<Message>, u: string): (p: seq<string>)
    ensures forall i, j | 0 <= i < j < |p| :: p[i] != p[j]
  {
    if msgs == [] then []
    else
      var p := Partners(msgs[..|msgs| - 1], u);
      var m := msgs[|msgs| - 1];
      if Involves(m, u) && Counterpart(m, u) !in p then p + [Counterpart(m, u)] else p
  }

  /** The distinct counterparts are exactly the users `u` exchanged a message with. */
  lemma {:induction false} PartnersComplete(msgs: seq<Message>, u: string, c: string)
    ensures c in Partners(msgs, u) <==> IsPartner(msgs, u, c)
  {
    if msgs != [] {
      var init := msgs[..|msgs| - 1];
      var last := msgs[|msgs| - 1];
      PartnersComplete(init, u, c);
      if IsPartner(msgs, u, c) {
        var i :| 0 <= i < |msgs| && Involves(msgs[i], u) && Counterpart(msgs[i], u) == c;
        if i < |msgs| - 1 {
          assert init[i] == msgs[i];
        }
      }
      if IsPartner(init, u, c) {
        var i :| 0 <= i < |init| && Involves(init[i], u) && Counterpart(init[i], u) == c;
        assert msgs[i] == init[i];
      }
    }
  }

  /** The latest message of a list (the first one among equally recent ones). */
  function LatestOf(s: seq<Message>): (r: Option<Message>)
    ensures r.None? <==> s == []
    ensures r.Some? ==> r.value in s && forall m | m in s :: m.createdAt <= r.value.createdAt
  {
    if s == [] then None
    else
      assert s == [s[0]] + s[1..];
      var rest := LatestOf(s[1..]);
      if rest.None? || rest.value.createdAt <= s[0].createdAt then Some(s[0]) else rest
  }

  /** `ORDER BY created_at DESC LIMIT 1` over the messages between `u` and `c`. */
  function Latest(msgs: seq<Message>, u: string, c: string): (r: Option<Message>)
    ensures r.None? <==> forall m | m in msgs :: !Between(m, u, c)
    ensures r.Some? ==> r.value in msgs && Between(r.value, u, c)
    ensures r.Some? ==> forall m | m in msgs && Between(m, u, c) :: m.createdAt <= r.value.createdAt
  {
    var s := Filter(msgs, InPair(u, c));
    LatestOf(s)
  }

  function UnreadFrom(u: string, c: string): Message -> bool
  {
    (m: Message) => m.senderId == c && m.receiverId == u && m.readAt.None?
  }

  /** `count(*)` of the messages `c` sent to `u` that are not read. */
  function UnreadCount(msgs: seq<Message>, u: string, c: string): (n: nat)
    ensures n <= |msgs|
  {
    Count(msgs, UnreadFrom(u, c))
  }

  /** An unread message from `c` to `u` adds one to `u`'s unread count for `c`. */
  lemma UnreadAfterIncoming(msgs: seq<Message>, m: Message, u: string)
    requires m.receiverId == u && m.readAt.None?
    ensures UnreadCount(msgs + [m], u, m.senderId) == UnreadCount(msgs, u, m.senderId) + 1
  {
    FilterConcat(msgs, [m], UnreadFrom(u, m.senderId));
  }

  /** A message `u` sends to someone else never counts as unread for `u`. */
  lemma UnreadAfterOwn(msgs: seq<Message>, m: Message, u: string, c: string)
    requires m.senderId == u && c != u
    ensures UnreadCount(msgs + [m], u, c) == UnreadCount(msgs, u, c)
  {
    FilterConcat(msgs, [m], UnreadFrom(u, c));
  }

  /** The user columns `getConversations` selects. */
  datatype Contact = Contact(id: string, name: string, username: string, profilePicture: Option<string>)

  function ContactOf(u: User): Contact
  {
    Contact(u.id, u.name, u.username, u.profilePicture)
  }

  datatype Conversation = Conversation(userId: string, user: Contact, lastMessage: Option<Message>, unreadCount: nat)

  function ConversationUser(e: Conversation): string
  {
    e.userId
  }

  /** The entry the loop pushes for counterpart `c`, or nothing when `c` has no
      user row (`if (!user) continue`). */
  function EntryFor(users: seq<User>, msgs: seq<Message>, u: string, c: string): Option<Conversation>
  {
    match UserById(users, c)
    case None => None
    case Some(v) => Some(Conversation(c, ContactOf(v), Latest(msgs, u, c), UnreadCount(msgs, u, c)))
  }

  /** The entries pushed for the counterparts `cs`, in order. */
  function Entries(users: seq<User>, msgs: seq<Message>, u: string, cs: seq<string>): (r: seq<Conversation>)
    ensures forall e | e in r :: e.userId in cs && EntryFor(users, msgs, u, e.userId) == Some(e)
    ensures forall c | c in cs && UserById(users, c).Some? :: EntryFor(users, msgs, u, c).value in r
  {
    if cs == [] then []
    else
      var init := cs[..|cs| - 1];
      var c := cs[|cs| - 1];
      assert cs == init + [c];
      var e := EntryFor(users, msgs, u, c);
      Entries(users, msgs, u, init) + (if e.Some? then [e.value] else [])
  }

  lemma {:induction false} EntriesDistinct(users: seq<User>, msgs: seq<Message>, u: string, cs: seq<string>)
    requires forall i, j | 0 <= i < j < |cs| :: cs[i] != cs[j]
    ensures DistinctBy(Entries(users, msgs, u, cs), ConversationUser)
  {
    if cs != [] {
      var init := cs[..|cs| - 1];
      var c := cs[|cs| - 1];
      EntriesDistinct(users, msgs, u, init);
      var prev := Entries(users, msgs, u, init);
      assert c !in init;
      forall e | e in prev
        ensures e.userId != c
      {
      }
    }
  }

  lemma EntriesStep(users: seq<User>, msgs: seq<Message>, u: string, cs: seq<string>, i: nat)
    requires i < |cs|
    ensures Entries(users, msgs, u, cs[..i + 1]) ==
      Entries(users, msgs, u, cs[..i]) + (if EntryFor(users, msgs, u, cs[i]).Some? then [EntryFor(users, msgs, u, cs[i]).value] else [])
  {
    assert cs[..i + 1][..i] == cs[..i];
  }

  /** The time the sort compares: the last message's, or the epoch without one. */
  function LastTime(e: Conversation): int
  {
    if e.lastMessage.Some? then e.lastMessage.value.createdAt else 0
  }

  /** `bDate.getTime() - aDate.getTime()`: newest first. */
  predicate RecencyLe(a: Conversation, b: Conversation)
  {
    LastTime(a) >= LastTime(b)
  }

  lemma RecencyLeTotal()
    ensures TotalPreorder(RecencyLe)
  {
  }

  /** `getConversations(u)`. */
  function Conversations(users: seq<User>, msgs: seq<Message>, u: string): seq<Conversation>
  {
    SortBy(Entries(users, msgs, u, Partners(msgs, u)), RecencyLe)
  }

  /** One entry per counterpart of `u` that has a user row, and no other; each
      entry carries the latest message of the pair and the unread count from
      that counterpart; the list is ordered newest first. */
  lemma ConversationsSpec(users: seq<User>, msgs: seq<Message>, u: string)
    ensures Sorted(Conversations(users, msgs, u), RecencyLe)
    ensures DistinctBy(Conversations(users, msgs, u), ConversationUser)
    ensures forall e | e in Conversations(users, msgs, u) ::
      IsPartner(msgs, u, e.userId) && EntryFor(users, msgs, u, e.userId) == Some(e)
    ensures forall c | IsPartner(msgs, u, c) && UserById(users, c).Some? ::
      EntryFor(users, msgs, u, c).value in Conversations(users, msgs, u)
  {
    var partners := Partners(msgs, u);
    var entries := Entries(users, msgs, u, partners);
    var r := Conversations(users, msgs, u);
    RecencyLeTotal();
    SortBySorted(entries, RecencyLe);
    EntriesDistinct(users, msgs, u, partners);
    SortByDistinct(entries, RecencyLe, ConversationUser);
    forall c
      ensures c in partners <==> IsPartner(msgs, u, c)
    {
      PartnersComplete(msgs, u, c);
    }
    forall e
      ensures e in r <==> e in entries
    {
      assert e in r <==> e in multiset(r);
      assert e in entries <==> e in multiset(entries);
    }
  }

  // ---------------------------------------------------------------------------
  // Row updates (updateUser, verifyUser, setResetCode, resetPassword)
  // ---------------------------------------------------------------------------

  /** `UPDATE … SET f WHERE p`: every row satisfying `p` is replaced by its image
      under `f`; the others stay. */
  function UpdateWhere(rows: seq<User>, p: User -> bool, f: User -> User): (r: seq<User>)
    ensures |r| == |rows|
    ensures forall i | 0 <= i < |rows| :: r[i] == if p(rows[i]) then f(rows[i]) else rows[i]
  {
    seq(|rows|, i requires 0 <= i < |rows| => if p(rows[i]) then f(rows[i]) else rows[i])
  }

  /** A patch never moves a row to another id. */
  lemma PatchKeepsIds(rows: seq<User>, id: string, patch: UserPatch)
    ensures forall i | 0 <= i < |rows| :: UpdateWhere(rows, HasId(id), Patched(patch))[i].id == rows[i].id
  {
    forall i | 0 <= i < |rows|
      ensures UpdateWhere(rows, HasId(id), Patched(patch))[i].id == rows[i].id
    {
      if rows[i].id == id {
        assert Patched(patch)(rows[i]).id == rows[i].id;
      }
    }
  }

  /** Whether `… RETURNING` gives a row back. */
  predicate AnyMatch(rows: seq<User>, p: User -> bool)
  {
    exists i | 0 <= i < |rows| :: p(rows[i])
  }

  /** The optional text columns a registration may carry (`insertUserSchema`
      keeps them); an absent one is stored as null. */
  datatype ProfileExtras = ProfileExtras(
    profilePicture: Option<string>,
    coverPhoto: Option<string>,
    bio: Option<string>,
    favoriteTeacher: Option<string>,
    hobby: Option<string>)

  /** The columns `updateUser` is called with here: the profile fields and the
      verification code; an absent field is left as it is. */
  datatype UserPatch = UserPatch(
    bio: Option<string>,
    favoriteTeacher: Option<string>,
    hobby: Option<string>,
    classOf: Option<string>,
    clan: Option<string>,
    profilePicture: Option<string>,
    coverPhoto: Option<string>,
    verificationCode: Option<string>)

  const NoChanges := UserPatch(None, None, None, None, None, None, None, None)

  function Pick<T>(patch: Option<T>, current: T): T
  {
    if patch.Some? then patch.value else current
  }

  function PickOptional<T>(patch: Option<T>, current: Option<T>): Option<T>
  {
    if patch.Some? then patch else current
  }

  function ApplyPatch(u: User, patch: UserPatch): (r: User)
    ensures patch == NoChanges ==> r == u
    ensures r.id == u.id && r.email == u.email && r.username == u.username && r.name == u.name
    ensures r.password == u.password && r.isVerified == u.isVerified && r.resetCode == u.resetCode
    ensures r.resetCodeExpires == u.resetCodeExpires && r.createdAt == u.createdAt
    ensures r.bio == if patch.bio.Some? then patch.bio else u.bio
    ensures r.favoriteTeacher == if patch.favoriteTeacher.Some? then patch.favoriteTeacher else u.favoriteTeacher
    ensures r.hobby == if patch.hobby.Some? then patch.hobby else u.hobby
    ensures r.classOf == if patch.classOf.Some? then patch.classOf.value else u.classOf
    ensures r.clan == if patch.clan.Some? then patch.clan.value else u.clan
    ensures r.profilePicture == if patch.profilePicture.Some? then patch.profilePicture else u.profilePicture
    ensures r.coverPhoto == if patch.coverPhoto.Some? then patch.coverPhoto else u.coverPhoto
    ensures r.verificationCode == if patch.verificationCode.Some? then patch.verificationCode else u.verificationCode
  {
    u.(bio := PickOptional(patch.bio, u.bio),
       favoriteTeacher := PickOptional(patch.favoriteTeacher, u.favoriteTeacher),
       hobby := PickOptional(patch.hobby, u.hobby),
       classOf := Pick(patch.classOf, u.classOf),
       clan := Pick(patch.clan, u.clan),
       profilePicture := PickOptional(patch.profilePicture, u.profilePicture),
       coverPhoto := PickOptional(patch.coverPhoto, u.coverPhoto),
       verificationCode := PickOptional(patch.verificationCode, u.verificationCode))
  }

  function Patched(patch: UserPatch): User -> User
  {
    (u: User) => ApplyPatch(u, patch)
  }

  /** `WHERE email = e AND verification_code = c`; a null code matches nothing. */
  function VerifyMatch(email: string, code: string): User -> bool
  {
    (u: User) => u.email == email && u.verificationCode == Some(code)
  }

  function MarkVerified(): User -> User
  {
    (u: User) => u.(isVerified := true, verificationCode := None)
  }

  function SetReset(code: string, expires: int): User -> User
  {
    (u: User) => u.(resetCode := Some(code), resetCodeExpires := Some(expires))
  }

  /** `WHERE email = e AND reset_code = c`: the expiry time is not consulted. */
  function ResetMatch(email: string, code: string): User -> bool
  {
    (u: User) => u.email == email && u.resetCode == Some(code)
  }

  function NewPassword(hashed: string): User -> User
  {
    (u: User) => u.(password := hashed, resetCode := None, resetCodeExpires := None)
  }

  /** A verification code works once: after `verifyUser(e, c)` no row matches
      `(e, c)` any more, and every matched row is verified. */
  lemma VerifyOnce(users: seq<User>, email: string, code: string)
    ensures !AnyMatch(UpdateWhere(users, VerifyMatch(email, code), MarkVerified()), VerifyMatch(email, code))
    ensures forall i | 0 <= i < |users| && VerifyMatch(email, code)(users[i]) ::
      UpdateWhere(users, VerifyMatch(email, code), MarkVerified())[i].isVerified
  {
    var r := UpdateWhere(users, VerifyMatch(email, code), MarkVerified());
    forall i | 0 <= i < |r|
      ensures !VerifyMatch(email, code)(r[i])
    {
      if VerifyMatch(email, code)(users[i]) {
        assert r[i].verificationCode == None;
      } else {
        assert r[i] == users[i];
      }
    }
  }

  /** A reset code works once, and it works however long ago it was issued:
      after `setResetCode(e, c, t)` on an existing email, `resetPassword(e, c, …)`
      matches whatever `t` was, and afterwards matches no more. */
  lemma ResetOnce(users: seq<User>, email: string, code: string, expires: int, hashed: string)
    requires exists i | 0 <= i < |users| :: users[i].email == email
    ensures AnyMatch(UpdateWhere(users, HasEmail(email), SetReset(code, expires)), ResetMatch(email, code))
    ensures
      var issued := UpdateWhere(users, HasEmail(email), SetReset(code, expires));
      !AnyMatch(UpdateWhere(issued, ResetMatch(email, code), NewPassword(hashed)), ResetMatch(email, code))
  {
    var issued := UpdateWhere(users, HasEmail(email), SetReset(code, expires));
    var i :| 0 <= i < |users| && users[i].email == email;
    assert ResetMatch(email, code)(issued[i]);
    var r := UpdateWhere(issued, ResetMatch(email, code), NewPassword(hashed));
    forall k | 0 <= k < |r|
      ensures !ResetMatch(email, code)(r[k])
    {
      if ResetMatch(email, code)(issued[k]) {
        assert r[k].resetCode == None;
      } else {
        assert r[k] == issued[k];
      }
    }
  }

  /** The column bounds survive a verification, a new reset code of six
      characters, and a password reset. */
  lemma UpdatesKeepColumns(users: seq<User>, email: string, code: string, expires: int, hashed: string)
    requires forall i | 0 <= i < |users| :: UserFitsColumns(users[i])
    requires |code| == CodeLength
    ensures forall u | u in UpdateWhere(users, VerifyMatch(email, code), MarkVerified()) :: UserFitsColumns(u)
    ensures forall u | u in UpdateWhere(users, HasEmail(email), SetReset(code, expires)) :: UserFitsColumns(u)
    ensures forall u | u in UpdateWhere(users, ResetMatch(email, code), NewPassword(hashed)) :: UserFitsColumns(u)
  {
    var a := UpdateWhere(users, VerifyMatch(email, code), MarkVerified());
    var b := UpdateWhere(users, HasEmail(email), SetReset(code, expires));
    var c := UpdateWhere(users, ResetMatch(email, code), NewPassword(hashed));
    forall u | u in a
      ensures UserFitsColumns(u)
    {
      var i :| 0 <= i < |a| && a[i] == u;
      assert UserFitsColumns(users[i]);
    }
    forall u | u in b
      ensures UserFitsColumns(u)
    {
      var i :| 0 <= i < |b| && b[i] == u;
      assert UserFitsColumns(users[i]);
    }
    forall u | u in c
      ensures UserFitsColumns(u)
    {
      var i :| 0 <= i < |c| && c[i] == u;
      assert UserFitsColumns(users[i]);
    }
  }

  // ---------------------------------------------------------------------------
  // Reactions (addReaction, removeReaction, addGalleryReaction, removeGalleryReaction)
  // ---------------------------------------------------------------------------

  predicate SamePair(r: Reaction, userId: string, targetId: string)
  {
    r.userId == userId && r.targetId == targetId
  }

  function OfPair(userId: string, targetId: string): Reaction -> bool
  {
    (r: Reaction) => SamePair(r, userId, targetId)
  }

  function NotOfPair(userId: string, targetId: string): Reaction -> bool
  {
    (r: Reaction) => !SamePair(r, userId, targetId)
  }

  /** Delete the pair's reactions, then insert the new one. */
  function WithReaction(rs: seq<Reaction>, added: Reaction): seq<Reaction>
  {
    Filter(rs, NotOfPair(added.userId, added.targetId)) + [added]
  }

  /** After an add the pair has exactly one reaction, the new one, and the
      reactions of every other pair are as before, in the same order. */
  lemma WithReactionSpec(rs: seq<Reaction>, added: Reaction)
    ensures Filter(WithReaction(rs, added), OfPair(added.userId, added.targetId)) == [added]
    ensures Filter(WithReaction(rs, added), NotOfPair(added.userId, added.targetId))
         == Filter(rs, NotOfPair(added.userId, added.targetId))
  {
    var p := OfPair(added.userId, added.targetId);
    var q := NotOfPair(added.userId, added.targetId);
    var kept := Filter(rs, q);
    assert p(added) && !q(added);
    assert [added][1..] == [];
    assert Filter([added], p) == [added];
    assert Filter([added], q) == [];
    NoHits(kept, p);
    FilterConcat(kept, [added], p);
    FilterConcat(kept, [added], q);
    FilterKeepsAll(kept, q);
  }

  /** Delete the pair's reactions; report whether any was deleted. */
  function WithoutReaction(rs: seq<Reaction>, userId: string, targetId: string): (seq<Reaction>, bool)
  {
    (Filter(rs, NotOfPair(userId, targetId)), Count(rs, OfPair(userId, targetId)) > 0)
  }

  /** After a removal the pair has no reaction, the others are kept, and the
      result is true exactly when the pair had one. */
  lemma WithoutReactionSpec(rs: seq<Reaction>, userId: string, targetId: string)
    ensures forall x | x in WithoutReaction(rs, userId, targetId).0 :: !SamePair(x, userId, targetId)
    ensures forall x | x in rs && !SamePair(x, userId, targetId) :: x in WithoutReaction(rs, userId, targetId).0
    ensures WithoutReaction(rs, userId, targetId).1 <==> exists i | 0 <= i < |rs| :: SamePair(rs[i], userId, targetId)
  {
    var hits := Filter(rs, OfPair(userId, targetId));
    if i :| 0 <= i < |rs| && SamePair(rs[i], userId, targetId) {
      assert rs[i] in hits;
    }
    if hits != [] {
      assert hits[0] in rs;
    }
  }

  /** Removing a reaction that was just added leaves the pair without one and
      reports a deletion. */
  lemma AddThenRemove(rs: seq<Reaction>, added: Reaction)
    ensures WithoutReaction(WithReaction(rs, added), added.userId, added.targetId).1
    ensures WithoutReaction(WithReaction(rs, added), added.userId, added.targetId).0
         == Filter(rs, NotOfPair(added.userId, added.targetId))
  {
    WithReactionSpec(rs, added);
  }

  lemma NoHits(rs: seq<Reaction>, p: Reaction -> bool)
    ensures Filter(rs, p) == [] <==> forall i | 0 <= i < |rs| :: !p(rs[i])
  {
    var hits := Filter(rs, p);
    if hits != [] {
      assert hits[0] in rs;
    }
    if i :| 0 <= i < |rs| && p(rs[i]) {
      assert rs[i] in hits;
    }
  }

  function OfKind(kind: string): Reaction -> bool
  {
    (r: Reaction) => r.kind == kind
  }

  /** `reactions.filter(r => r.type === kind).length`. */
  function CountKind(rs: seq<Reaction>, kind: string): (n: nat)
    ensures n <= |rs|
    ensures n == 0 <==> forall i | 0 <= i < |rs| :: rs[i].kind != kind
  {
    var hits := Filter(rs, OfKind(kind));
    NoHits(rs, OfKind(kind));
    |hits|
  }

  /** One more reaction of a kind counts once more for that kind and not at all
      for the others. */
  lemma CountKindAppend(rs: seq<Reaction>, r: Reaction, kind: string)
    ensures CountKind(rs + [r], kind) == CountKind(rs, kind) + (if r.kind == kind then 1 else 0)
  {
    FilterConcat(rs, [r], OfKind(kind));
  }

  /** `reactions.filter(r => r.galleryId === item.id)`. */
  function ReactionsOn(rs: seq<Reaction>, targetId: string): (r: seq<Reaction>)
    ensures forall x :: x in r <==> x in rs && x.targetId == targetId
  {
    Filter(rs, (x: Reaction) => x.targetId == targetId)
  }

  // ---------------------------------------------------------------------------
  // User search (searchUsers)
  // ---------------------------------------------------------------------------

  /** The filters that are supplied, all together; an empty string counts as not
      supplied, and the query matches a name or username containing it. */
  predicate SearchMatch(u: User, query: string, classOf: Option<string>, clan: Option<string>)
  {
    && (query == "" || Contains(u.name, query) || Contains(u.username, query))
    && (classOf.None? || classOf.value == "" || u.classOf == classOf.value)
    && (clan.None? || clan.value == "" || u.clan == clan.value)
  }

  function Matching(query: string, classOf: Option<string>, clan: Option<string>): User -> bool
  {
    (u: User) => SearchMatch(u, query, classOf, clan)
  }

  predicate NameLe(a: User, b: User)
  {
    StrLe(a.name, b.name)
  }

  lemma NameLeTotal()
    ensures TotalPreorder(NameLe)
  {
    forall a: User, b: User
      ensures NameLe(a, b) || NameLe(b, a)
    {
      StrLeTotal(a.name, b.name);
    }
    forall a: User, b: User, c: User | NameLe(a, b) && NameLe(b, c)
      ensures NameLe(a, c)
    {
      StrLeTransitive(a.name, b.name, c.name);
    }
  }

  /** `searchUsers(query, classOf, clan)`. */
  function SearchUsers(users: seq<User>, query: string, classOf: Option<string>, clan: Option<string>): seq<User>
  {
    SortBy(Filter(users, Matching(query, classOf, clan)), NameLe)
  }

  /** The result is the users that meet every supplied filter, each as often as
      in the table, ordered by name. */
  lemma SearchUsersSpec(users: seq<User>, query: string, classOf: Option<string>, clan: Option<string>)
    ensures Sorted(SearchUsers(users, query, classOf, clan), NameLe)
    ensures forall u ::
      multiset(SearchUsers(users, query, classOf, clan))[u] == (if SearchMatch(u, query, classOf, clan) then multiset(users)[u] else 0)
  {
    NameLeTotal();
    SortBySorted(Filter(users, Matching(query, classOf, clan)), NameLe);
  }

  /** Without filters every user is found, verified or not. */
  lemma SearchWithoutFilters(users: seq<User>)
    ensures multiset(SearchUsers(users, "", None, None)) == multiset(users)
  {
    FilterKeepsAll(users, Matching("", None, None));
  }

  // ---------------------------------------------------------------------------
  // The database
  // ---------------------------------------------------------------------------

  /** The tables. Row ids come from `nextId` (the database's `gen_random_uuid()`). */
  // ---------------------------------------------------------------------------
  // Foreign keys
  // ---------------------------------------------------------------------------

  /** Some gallery row has this id. */
  predicate HasItem(items: seq<GalleryItem>, id: string)
  {
    exists i | 0 <= i < |items| :: items[i].id == id
  }

  /** The `references(...)` columns of the modelled tables: both ends of a
      message, the uploader of a gallery item, and the user and the item of a
      gallery reaction name existing rows. */
  predicate ForeignKeysHold(users: seq<User>, msgs: seq<Message>, items: seq<GalleryItem>, galleryReactions: seq<Reaction>)
  {
    && (forall m | m in msgs :: UserById(users, m.senderId).Some? && UserById(users, m.receiverId).Some?)
    && (forall g | g in items :: UserById(users, g.userId).Some?)
    && (forall r | r in galleryReactions :: UserById(users, r.userId).Some? && HasItem(items, r.targetId))
  }

  /** The text PostgreSQL gives for an insert that breaks a foreign key. */
  function ForeignKeyError(table: string): string
  {
    "insert or update on table \"" + table + "\" violates foreign key constraint"
  }

  /** A new account keeps every id that had a row. */
  lemma UsersGrow(users: seq<User>, u: User)
    ensures forall id | UserById(users, id).Some? :: UserById(users + [u], id).Some?
  {
    forall id | UserById(users, id).Some?
      ensures UserById(users + [u], id).Some?
    {
      var i :| 0 <= i < |users| && users[i].id == id;
      assert (users + [u])[i].id == id;
    }
  }

  /** Tables with the same ids in the same places find the same ids. */
  lemma SameIds(before: seq<User>, after: seq<User>)
    requires |after| == |before|
    requires forall i | 0 <= i < |before| :: after[i].id == before[i].id
    ensures forall id :: UserById(after, id).Some? <==> UserById(before, id).Some?
  {
    forall id
      ensures UserById(after, id).Some? <==> UserById(before, id).Some?
    {
      if UserById(before, id).Some? {
        var i :| 0 <= i < |before| && before[i].id == id;
        assert after[i].id == id;
      }
      if UserById(after, id).Some? {
        var i :| 0 <= i < |after| && after[i].id == id;
        assert before[i].id == id;
      }
    }
  }

  /** An update that never touches the id column keeps the ids of all rows. */
  lemma UpdateKeepsIds(rows: seq<User>, p: User -> bool, f: User -> User)
    requires forall u: User :: f(u).id == u.id
    ensures forall i | 0 <= i < |rows| :: UpdateWhere(rows, p, f)[i].id == rows[i].id
  {
    forall i | 0 <= i < |rows|
      ensures UpdateWhere(rows, p, f)[i].id == rows[i].id
    {
      assert f(rows[i]).id == rows[i].id;
    }
  }

  /** When the keys hold, a failed gallery reaction (unknown user or item) has
      nothing to delete first. */
  lemma NothingToDelete(users: seq<User>, msgs: seq<Message>, items: seq<GalleryItem>, rs: seq<Reaction>,
                        userId: string, galleryId: string)
    requires ForeignKeysHold(users, msgs, items, rs)
    requires UserById(users, userId).None? || !HasItem(items, galleryId)
    ensures Filter(rs, NotOfPair(userId, galleryId)) == rs
  {
    forall i | 0 <= i < |rs|
      ensures NotOfPair(userId, galleryId)(rs[i])
    {
      assert rs[i] in rs;
    }
    FilterKeepsAll(rs, NotOfPair(userId, galleryId));
  }

  class Database {
    var users: seq<User>
    var messages: seq<Message>
    var reactions: seq<Reaction>
    var galleryItems: seq<GalleryItem>
    var galleryReactions: seq<Reaction>
    var nextId: nat

    constructor()
      ensures users == [] && messages == [] && reactions == []
      ensures galleryItems == [] && galleryReactions == [] && nextId == 0
      ensures KeysHold()
    {
      users := [];
      messages := [];
      reactions := [];
      galleryItems := [];
      galleryReactions := [];
      nextId := 0;
    }

    /** The foreign keys hold in the current tables. */
    predicate KeysHold()
      reads this
    {
      ForeignKeysHold(users, messages, galleryItems, galleryReactions)
    }

    /** Every table but `users`, which the account routes leave alone. */
    function OtherTables(): (seq<Message>, seq<Reaction>, seq<GalleryItem>, seq<Reaction>)
      reads this
    {
      (messages, reactions, galleryItems, galleryReactions)
    }

    /** A new row id. */
    method FreshId() returns (id: string)
      modifies this
      ensures id == NatToString(old(nextId)) && nextId == old(nextId) + 1
      ensures users == old(users) && messages == old(messages) && reactions == old(reactions)
      ensures galleryItems == old(galleryItems) && galleryReactions == old(galleryReactions)
    {
      id := NatToString(nextId);
      nextId := nextId + 1;
    }

    /** `createUser`: the password arrives hashed; the optional profile fields
        are stored as given; the row starts unverified with the given
        verification code. */
    method CreateUser(name: string, username: string, email: string, hashed: string,
                      classOf: string, clan: string, extras: ProfileExtras, code: string, now: int) returns (u: User)
      modifies this
      ensures u == User(NatToString(old(nextId)), name, username, email, hashed, classOf, clan,
                        extras.profilePicture, extras.coverPhoto, extras.bio, extras.favoriteTeacher, extras.hobby,
                        false, Some(code), None, None, now)
      ensures users == old(users) + [u] && nextId == old(nextId) + 1
      ensures messages == old(messages) && reactions == old(reactions)
      ensures galleryItems == old(galleryItems) && galleryReactions == old(galleryReactions)
      ensures old(KeysHold()) ==> KeysHold()
    {
      UsersGrow(users, User(NatToString(nextId), name, username, email, hashed, classOf, clan,
                            extras.profilePicture, extras.coverPhoto, extras.bio, extras.favoriteTeacher, extras.hobby,
                            false, Some(code), None, None, now));
      var id := FreshId();
      u := User(id, name, username, email, hashed, classOf, clan,
                extras.profilePicture, extras.coverPhoto, extras.bio, extras.favoriteTeacher, extras.hobby,
                false, Some(code), None, None, now);
      users := users + [u];
    }

    /** `updateUser(id, updates)`: the updated row, if the id exists. */
    method UpdateUser(id: string, patch: UserPatch) returns (r: Option<User>)
      modifies this
      ensures users == UpdateWhere(old(users), HasId(id), Patched(patch))
      ensures r == UserById(users, id)
      ensures r.Some? <==> UserById(old(users), id).Some?
      ensures messages == old(messages) && reactions == old(reactions) && nextId == old(nextId)
      ensures galleryItems == old(galleryItems) && galleryReactions == old(galleryReactions)
      ensures old(KeysHold()) ==> KeysHold()
    {
      ghost var before := users;
      users := UpdateWhere(users, HasId(id), Patched(patch));
      PatchKeepsIds(before, id, patch);
      SameIds(before, users);
      r := UserById(users, id);
    }

    /** `verifyUser(email, code)`. */
    method VerifyUser(email: string, code: string) returns (ok: bool)
      modifies this
      ensures users == UpdateWhere(old(users), VerifyMatch(email, code), MarkVerified())
      ensures ok <==> AnyMatch(old(users), VerifyMatch(email, code))
      ensures messages == old(messages) && reactions == old(reactions) && nextId == old(nextId)
      ensures galleryItems == old(galleryItems) && galleryReactions == old(galleryReactions)
      ensures old(KeysHold()) ==> KeysHold()
    {
      ghost var before := users;
      ok := AnyMatch(users, VerifyMatch(email, code));
      users := UpdateWhere(users, VerifyMatch(email, code), MarkVerified());
      UpdateKeepsIds(before, VerifyMatch(email, code), MarkVerified());
      SameIds(before, users);
    }

    /** `setResetCode(email, code, expires)`. */
    method SetResetCode(email: string, code: string, expires: int) returns (ok: bool)
      modifies this
      ensures users == UpdateWhere(old(users), HasEmail(email), SetReset(code, expires))
      ensures ok <==> AnyMatch(old(users), HasEmail(email))
      ensures messages == old(messages) && reactions == old(reactions) && nextId == old(nextId)
      ensures galleryItems == old(galleryItems) && galleryReactions == old(galleryReactions)
      ensures old(KeysHold()) ==> KeysHold()
    {
      ghost var before := users;
      ok := AnyMatch(users, HasEmail(email));
      users := UpdateWhere(users, HasEmail(email), SetReset(code, expires));
      UpdateKeepsIds(before, HasEmail(email), SetReset(code, expires));
      SameIds(before, users);
    }

    /** `resetPassword(email, code, newPassword)`, with the password already hashed. */
    method ResetPassword(email: string, code: string, hashed: string) returns (ok: bool)
      modifies this
      ensures users == UpdateWhere(old(users), ResetMatch(email, code), NewPassword(hashed))
      ensures ok <==> AnyMatch(old(users), ResetMatch(email, code))
      ensures messages == old(messages) && reactions == old(reactions) && nextId == old(nextId)
      ensures galleryItems == old(galleryItems) && galleryReactions == old(galleryReactions)
      ensures old(KeysHold()) ==> KeysHold()
    {
      ghost var before := users;
      ok := AnyMatch(users, ResetMatch(email, code));
      users := UpdateWhere(users, ResetMatch(email, code), NewPassword(hashed));
      UpdateKeepsIds(before, ResetMatch(email, code), NewPassword(hashed));
      SameIds(before, users);
    }

    /** `createMessage`: insert the row, then read it back joined with its
        sender. The insert fails, and nothing is stored, when the sender or the
        receiver has no row (the foreign keys of `messages`). */
    method CreateMessage(senderId: string, receiverId: string, content: Option<string>,
                         mediaUrl: Option<string>, mediaType: Option<string>,
                         fileName: Option<string>, now: int) returns (r: Option<MessageWithSender>)
      modifies this
      ensures UserById(users, senderId).None? || UserById(users, receiverId).None? ==>
        r.None? && messages == old(messages) && nextId == old(nextId)
      ensures UserById(users, senderId).Some? && UserById(users, receiverId).Some? ==>
        var m := NewMessage(NatToString(old(nextId)), senderId, receiverId, content, mediaUrl, mediaType, fileName, now);
        && messages == old(messages) + [m] && nextId == old(nextId) + 1
        && r == Some(Attach(m, UserById(users, senderId).value))
      ensures users == old(users) && reactions == old(reactions)
      ensures galleryItems == old(galleryItems) && galleryReactions == old(galleryReactions)
      ensures old(KeysHold()) ==> KeysHold()
    {
      var sender, receiver := UserById(users, senderId), UserById(users, receiverId);
      if sender.None? || receiver.None? {
        return None;
      }
      var id := FreshId();
      var m := NewMessage(id, senderId, receiverId, content, mediaUrl, mediaType, fileName, now);
      messages := messages + [m];
      r := Some(Attach(m, sender.value));
    }

    /** `getMessages(a, b)`. */
    method GetMessages(a: string, b: string) returns (r: seq<MessageWithSender>)
      ensures r == MessagesBetween(users, messages, a, b)
    {
      r := MessagesBetween(users, messages, a, b);
    }

    /** `getConversations(u)`: one pass over the distinct counterparts, pushing an
        entry for each that has a user row, then the sort. */
    method GetConversations(u: string) returns (convs: seq<Conversation>)
      ensures convs == Conversations(users, messages, u)
    {
      var us, ms := users, messages;
      var partners := Partners(ms, u);
      var acc: seq<Conversation> := [];
      var i := 0;
      while i < |partners|
        invariant 0 <= i <= |partners|
        invariant acc == Entries(us, ms, u, partners[..i])
      {
        EntriesStep(us, ms, u, partners, i);
        var e := EntryFor(us, ms, u, partners[i]);
        if e.Some? {
          acc := acc + [e.value];
        }
        i := i + 1;
      }
      assert partners[..i] == partners;
      convs := SortBy(acc, RecencyLe);
    }

    /** `addReaction`: delete the user's reaction on the post, insert the new one. */
    method AddReaction(userId: string, postId: string, kind: string) returns (r: Reaction)
      modifies this
      ensures r == Reaction(NatToString(old(nextId)), userId, postId, kind)
      ensures reactions == WithReaction(old(reactions), r)
      ensures users == old(users) && messages == old(messages) && nextId == old(nextId) + 1
      ensures galleryItems == old(galleryItems) && galleryReactions == old(galleryReactions)
      ensures old(KeysHold()) ==> KeysHold()
    {
      var id := FreshId();
      r := Reaction(id, userId, postId, kind);
      reactions := WithReaction(reactions, r);
    }

    /** `removeReaction`: true when a row was deleted. */
    method RemoveReaction(userId: string, postId: string) returns (removed: bool)
      modifies this
      ensures (reactions, removed) == WithoutReaction(old(reactions), userId, postId)
      ensures users == old(users) && messages == old(messages) && nextId == old(nextId)
      ensures galleryItems == old(galleryItems) && galleryReactions == old(galleryReactions)
      ensures old(KeysHold()) ==> KeysHold()
    {
      var result := WithoutReaction(reactions, userId, postId);
      reactions := result.0;
      removed := result.1;
    }

    /** `addGalleryReaction`: delete the user's reaction on the item, then
        insert the new one. The insert fails when the user or the item has no
        row (the foreign keys of `gallery_reactions`); the delete has already
        run, though with the keys holding it found nothing. */
    method AddGalleryReaction(userId: string, galleryId: string, kind: string) returns (r: Option<Reaction>)
      modifies this
      ensures UserById(users, userId).Some? && HasItem(galleryItems, galleryId) ==>
        && r == Some(Reaction(NatToString(old(nextId)), userId, galleryId, kind))
        && galleryReactions == WithReaction(old(galleryReactions), r.value)
        && nextId == old(nextId) + 1
      ensures UserById(users, userId).None? || !HasItem(galleryItems, galleryId) ==>
        && r.None? && nextId == old(nextId)
        && galleryReactions == Filter(old(galleryReactions), NotOfPair(userId, galleryId))
      ensures old(KeysHold()) && r.None? ==> galleryReactions == old(galleryReactions)
      ensures users == old(users) && messages == old(messages)
      ensures galleryItems == old(galleryItems) && reactions == old(reactions)
      ensures old(KeysHold()) ==> KeysHold()
    {
      if !(UserById(users, userId).Some? && HasItem(galleryItems, galleryId)) && KeysHold() {
        NothingToDelete(users, messages, galleryItems, galleryReactions, userId, galleryId);
      }
      galleryReactions := Filter(galleryReactions, NotOfPair(userId, galleryId));
      if UserById(users, userId).None? || !HasItem(galleryItems, galleryId) {
        return None;
      }
      var id := FreshId();
      r := Some(Reaction(id, userId, galleryId, kind));
      galleryReactions := galleryReactions + [r.value];
    }

    /** `removeGalleryReaction`. */
    method RemoveGalleryReaction(userId: string, galleryId: string) returns (removed: bool)
      modifies this
      ensures (galleryReactions, removed) == WithoutReaction(old(galleryReactions), userId, galleryId)
      ensures users == old(users) && messages == old(messages) && nextId == old(nextId)
      ensures galleryItems == old(galleryItems) && reactions == old(reactions)
      ensures old(KeysHold()) ==> KeysHold()
    {
      var result := WithoutReaction(galleryReactions, userId, galleryId);
      galleryReactions := result.0;
      removed := result.1;
    }

    /** `createGalleryItem`: the insert fails, and nothing is stored, when the
        uploader has no row (the foreign key of `gallery`). */
    method CreateGalleryItem(userId: string, title: Option<string>, description: Option<string>,
                             mediaUrl: string, mediaType: string, fileName: string,
                             fileSize: int, now: int) returns (g: Option<GalleryItem>)
      modifies this
      ensures UserById(users, userId).None? ==>
        g.None? && galleryItems == old(galleryItems) && nextId == old(nextId)
      ensures UserById(users, userId).Some? ==>
        && g == Some(GalleryItem(NatToString(old(nextId)), userId, title, description, mediaUrl,
                                 mediaType, fileName, fileSize, now))
        && galleryItems == old(galleryItems) + [g.value]
        && nextId == old(nextId) + 1
      ensures users == old(users) && messages == old(messages)
      ensures reactions == old(reactions) && galleryReactions == old(galleryReactions)
      ensures old(KeysHold()) ==> KeysHold()
    {
      if UserById(users, userId).None? {
        return None;
      }
      var id := FreshId();
      g := Some(GalleryItem(id, userId, title, description, mediaUrl, mediaType, fileName, fileSize, now));
      ghost var before := galleryItems;
      galleryItems := galleryItems + [g.value];
      forall r | r in galleryReactions && HasItem(before, r.targetId)
        ensures HasItem(galleryItems, r.targetId)
      {
        var k :| 0 <= k < |before| && before[k].id == r.targetId;
        assert galleryItems[k].id == r.targetId;
      }
    }
  }
}
