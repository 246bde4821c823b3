/** The socket.io part of `server/routes.ts`: which rooms a connection is in and
    to whom each event is addressed. Delivery itself is not modelled; an
    event's audience is the set of connections in the room it is sent to. */
module Realtime {
  import opened Common
  import opened Routes

  // ---------------------------------------------------------------------------
  // Room names
  // ---------------------------------------------------------------------------

  /** `[a, b].sort().join('_')`: the two ids in default sort order, joined. */
  function RoomKey(a: string, b: string): string
  {
    if StrLe(a, b) then Join([a, b], '_') else Join([b, a], '_')
  }

  /** Both ends of a conversation compute the same room. */
  lemma RoomKeySymmetric(a: string, b: string)
    ensures RoomKey(a, b) == RoomKey(b, a)
  {
    StrLeTotal(a, b);
    if StrLe(a, b) && StrLe(b, a) {
      StrLeAntisymmetric(a, b);
    }
  }

  /** For ids without `_`, the room names the pair: different pairs never share
      a room. */
  lemma RoomKeyInjective(a: string, b: string, c: string, d: string)
    requires '_' !in a && '_' !in b && '_' !in c && '_' !in d
    requires RoomKey(a, b) == RoomKey(c, d)
    ensures (a == c && b == d) || (a == d && b == c)
  {
    var ab := if StrLe(a, b) then [a, b] else [b, a];
    var cd := if StrLe(c, d) then [c, d] else [d, c];
    SplitJoin(ab, '_');
    SplitJoin(cd, '_');
    assert ab == cd;
  }

  /** A conversation room between ids without `_`, neither of them `user`, is
      never a user's own room. */
  lemma ConversationRoomIsNotUserRoom(a: string, b: string, c: string)
    requires '_' !in a && '_' !in b && '_' !in c
    requires a != "user" && b != "user"
    ensures RoomKey(a, b) != UserRoom(c)
  {
    assert UserRoom(c) == Join(["user", c], '_') by {
      assert Join(["user", c][1..], '_') == c;
    }
    var ab := if StrLe(a, b) then [a, b] else [b, a];
    SplitJoin(ab, '_');
    SplitJoin(["user", c], '_');
  }

  // ---------------------------------------------------------------------------
  // Connections and audiences
  // ---------------------------------------------------------------------------

  /** A connection: the user its handshake token named, and its rooms. */
  datatype Socket = Socket(userId: string, rooms: set<string>)

  /** The connections in a room. */
  function Members(sockets: seq<Socket>, room: string): (r: set<nat>)
    ensures forall i :: i in r <==> 0 <= i < |sockets| && room in sockets[i].rooms
  {
    set i: nat | i < |sockets| && room in sockets[i].rooms
  }

  /** Every connection is in its own user's room. */
  ghost predicate EachInOwnRoom(sockets: seq<Socket>)
  {
    forall i | 0 <= i < |sockets| :: UserRoom(sockets[i].userId) in sockets[i].rooms
  }

  /** `new_message`, sent to `user_<receiver>` and to `user_<sender>`. */
  function NewMessageAudience(sockets: seq<Socket>, receiverId: string, senderId: string): set<nat>
  {
    Members(sockets, UserRoom(receiverId)) + Members(sockets, UserRoom(senderId))
  }

  /** While every connection is in its own room, each connection of the
      receiver and each of the sender gets the new message. */
  lemma NewMessageReachesBoth(sockets: seq<Socket>, receiverId: string, senderId: string)
    requires EachInOwnRoom(sockets)
    ensures forall i | 0 <= i < |sockets| && (sockets[i].userId == receiverId || sockets[i].userId == senderId) ::
      i in NewMessageAudience(sockets, receiverId, senderId)
  {
  }

  /** `socket.to(room).emit('user_typing', …)`: the conversation room of the
      typist and the receiver, without the typist's own connection. */
  function TypingAudience(sockets: seq<Socket>, typist: nat, receiverId: string): (r: set<nat>)
    requires typist < |sockets|
    ensures typist !in r
    ensures forall i | i in r :: i < |sockets| && RoomKey(sockets[typist].userId, receiverId) in sockets[i].rooms
  {
    Members(sockets, RoomKey(sockets[typist].userId, receiverId)) - {typist}
  }

  /** The receiver hears the typing when one of its connections has joined the
      conversation with the typist: it joined under its own id first, which
      names the same room. */
  lemma TypingReachesPartner(sockets: seq<Socket>, typist: nat, partner: nat)
    requires typist < |sockets| && partner < |sockets| && typist != partner
    requires RoomKey(sockets[partner].userId, sockets[typist].userId) in sockets[partner].rooms
    ensures partner in TypingAudience(sockets, typist, sockets[partner].userId)
  {
    RoomKeySymmetric(sockets[partner].userId, sockets[typist].userId);
  }

  /** The connected sockets of the server. */
  class Hub {
    var sockets: seq<Socket>

    constructor()
      ensures sockets == []
    {
      sockets := [];
    }

    /** The handshake check and the `connection` handler: a connection without
        a token, or with one `jwt.verify` refuses, is rejected; an accepted one
        joins `user_<id>`. */
    method Connect(token: Option<string>, valid: map<string, Claims>) returns (id: Option<nat>)
      modifies this
      ensures token.None? || token.value == "" || token.value !in valid ==>
        id.None? && sockets == old(sockets)
      ensures token.Some? && token.value != "" && token.value in valid ==>
        && id == Some(|old(sockets)|)
        && sockets == old(sockets) + [Socket(valid[token.value].userId, {UserRoom(valid[token.value].userId)})]
      ensures EachInOwnRoom(old(sockets)) ==> EachInOwnRoom(sockets)
    {
      if token.None? || token.value == "" || token.value !in valid {
        return None;
      }
      var userId := valid[token.value].userId;
      id := Some(|sockets|);
      sockets := sockets + [Socket(userId, {UserRoom(userId)})];
    }

    /** `join_conversation`. */
    method JoinConversation(s: nat, otherUserId: string)
      requires s < |sockets|
      modifies this
      ensures sockets == old(sockets)[s := Socket(old(sockets)[s].userId,
                                                  old(sockets)[s].rooms + {RoomKey(old(sockets)[s].userId, otherUserId)})]
      ensures EachInOwnRoom(old(sockets)) ==> EachInOwnRoom(sockets)
    {
      var socket := sockets[s];
      sockets := sockets[s := socket.(rooms := socket.rooms + {RoomKey(socket.userId, otherUserId)})];
    }

    /** `leave_conversation`: the room `join_conversation` joined for the same id. */
    method LeaveConversation(s: nat, otherUserId: string)
      requires s < |sockets|
      modifies this
      ensures sockets == old(sockets)[s := Socket(old(sockets)[s].userId,
                                                  old(sockets)[s].rooms - {RoomKey(old(sockets)[s].userId, otherUserId)})]
      ensures RoomKey(old(sockets)[s].userId, otherUserId) !in sockets[s].rooms
      ensures EachInOwnRoom(old(sockets)) && RoomKey(old(sockets)[s].userId, otherUserId) != UserRoom(old(sockets)[s].userId) ==>
        EachInOwnRoom(sockets)
    {
      var socket := sockets[s];
      sockets := sockets[s := socket.(rooms := socket.rooms - {RoomKey(socket.userId, otherUserId)})];
    }
  }
}
