/** The real-time chat server: a process-wide presence registry `users` (user id to current
    conversation and socket), the handlers that the socket events run against it, and the events
    those handlers emit. */
module ChatSocket {
  import opened Common
  import opened Models

  /** A presence entry `users[userId]`. `user connected` stores a socket and no conversation;
      `join conversation` stores only the conversation and drops the socket. */
  datatype Entry = Entry(conversationId: Option<Id>, socketId: Option<Id>)

  /** An event the server emits, with the audience the transport delivers it to. */
  datatype Event =
      /** `io.emit('user data', users)`: the whole registry, to every socket. */
    | UserData(users: map<Id, Entry>)
      /** `socket.emit('error', text)`: to one socket. */
    | SocketError(socket: Id, text: string)
      /** `socket.disconnect()`. */
    | SocketDisconnected(socket: Id)
      /** `io.to(room).emit('get chat messages')`: every socket in the room re-fetches. */
    | GetChatMessages(room: Id)
      /** `socket.broadcast.to(room).emit('typing', typing)`: the room except the sending socket. */
    | Typing(room: Id, except: Id, typing: bool)
      /** `socket.to(room).emit('error', text)`: the room except the sending socket. */
    | RoomError(room: Id, except: Id, text: string)
      /** `io.to(room).emit('message sent', message)`: every socket in the room. */
    | MessageSent(room: Id, message: Message)

  /** The `send message` payload; `body` may be left out. */
  datatype Payload = Payload(sender: Id, receiver: Id, conversation: Id, body: Option<string>)

  const DuplicateSession := "Chat probably opened in another tab. You are disconnected now."
  const SendFailed := "An error occured while sending the message."

  /** The users whose entry names `conversation`: those the server counts as present in its room. */
  function RoomMembers(users: map<Id, Entry>, conversation: Id): set<Id> {
    set k | k in users && users[k].conversationId == Some(conversation)
  }

  /** The message as `message seen` leaves it: flagged seen when it belongs to `conversation` and is
      addressed to `receiver`. */
  function MarkOne(m: Message, conversation: Id, receiver: Id): Message {
    if m.conversation == conversation && m.receiver == receiver then m.(seen := true) else m
  }

  /** The store's `updateMany({conversation, receiver}, {seen: true})`. */
  function MarkSeen(messages: seq<Message>, conversation: Id, receiver: Id): (r: seq<Message>)
    ensures |r| == |messages|
    ensures forall i :: 0 <= i < |r| ==>
      if messages[i].conversation == conversation && messages[i].receiver == receiver
      then r[i] == messages[i].(seen := true)
      else r[i] == messages[i]
  {
    if messages == [] then []
    else [MarkOne(messages[0], conversation, receiver)] + MarkSeen(messages[1..], conversation, receiver)
  }

  /** Marking a conversation's messages seen twice is the same as marking them once. */
  lemma MarkSeenIdempotent(messages: seq<Message>, conversation: Id, receiver: Id)
    ensures MarkSeen(MarkSeen(messages, conversation, receiver), conversation, receiver)
         == MarkSeen(messages, conversation, receiver)
  {
  }

  class ChatServer {
    /** The presence registry. */
    var users: map<Id, Entry>
    /** The Message collection. */
    var messages: seq<Message>
    /** Everything emitted so far, oldest first. */
    var log: seq<Event>

    constructor (messages: seq<Message>)
      ensures users == map[] && this.messages == messages && log == []
    {
      users := map[];
      this.messages := messages;
      log := [];
    }

    /** `user connected`: a second connection for a user already present gets an error and is
        disconnected, its entry is deleted, and then the entry is written with the new socket anyway. */
    method UserConnected(userId: Id, socket: Id)
      modifies this
      ensures users == old(users)[userId := Entry(None, Some(socket))]
      ensures forall k :: k in old(users) && k != userId ==> k in users && users[k] == old(users)[k]
      ensures messages == old(messages)
      ensures log == old(log)
        + (if userId in old(users) then [SocketError(socket, DuplicateSession), SocketDisconnected(socket)] else [])
        + [UserData(users)]
    {
      if userId in users {
        log := log + [SocketError(socket, DuplicateSession)];
        log := log + [SocketDisconnected(socket)];
        users := users - {userId};
      }
      users := users[userId := Entry(None, Some(socket))];
      log := log + [UserData(users)];
    }

    /** `join conversation`: the entry becomes `{conversationId}`, without its socket. */
    method JoinConversation(userId: Id, conversationId: Id)
      modifies this
      ensures users == old(users)[userId := Entry(Some(conversationId), None)]
      ensures forall k :: k in old(users) && k != userId ==> k in users && users[k] == old(users)[k]
      ensures messages == old(messages)
      ensures log == old(log) + [UserData(users), GetChatMessages(conversationId)]
    {
      users := users[userId := Entry(Some(conversationId), None)];
      log := log + [UserData(users)];
      log := log + [GetChatMessages(conversationId)];
    }

    /** `message seen`, for the conversation the user joined: flags the user's incoming messages of
        that conversation and tells the room to re-fetch. */
    method MessageSeen(userId: Id, conversationId: Id)
      modifies this
      ensures users == old(users)
      ensures messages == MarkSeen(old(messages), conversationId, userId)
      ensures log == old(log) + [GetChatMessages(conversationId)]
    {
      messages := MarkSeen(messages, conversationId, userId);
      log := log + [GetChatMessages(conversationId)];
    }

    /** `start typing`. */
    method StartTyping(socket: Id, conversationId: Id)
      modifies this
      ensures users == old(users) && messages == old(messages)
      ensures log == old(log) + [Typing(conversationId, socket, true)]
    {
      log := log + [Typing(conversationId, socket, true)];
    }

    /** `stop typing`. */
    method StopTyping(socket: Id, conversationId: Id)
      modifies this
      ensures users == old(users) && messages == old(messages)
      ensures log == old(log) + [Typing(conversationId, socket, false)]
    {
      log := log + [Typing(conversationId, socket, false)];
    }

    /** The occupancy loop of `send message`: how many entries name `conversation`. */
    method CountRoomMembers(conversation: Id) returns (count: nat)
      ensures count == |RoomMembers(users, conversation)|
      ensures count <= |users|
    {
      count := 0;
      var rest := users.Keys;
      ghost var done: set<Id> := {};
      while rest != {}
        invariant rest + done == users.Keys && rest !! done
        invariant count == |RoomMembers(users, conversation) * done|
        decreases |rest|
      {
        var k :| k in rest;
        ghost var before := RoomMembers(users, conversation) * done;
        if users[k].conversationId == Some(conversation) {
          assert RoomMembers(users, conversation) * (done + {k}) == before + {k};
          count := count + 1;
        } else {
          assert RoomMembers(users, conversation) * (done + {k}) == before;
        }
        rest := rest - {k};
        done := done + {k};
      }
      assert RoomMembers(users, conversation) * done == RoomMembers(users, conversation);
      assert RoomMembers(users, conversation) <= users.Keys;
      SubsetCardinality(RoomMembers(users, conversation), users.Keys);
    }

    /** `send message` on a socket whose user joined `conversationId`. The message is stored with
        `seen` set when more than one entry names the message's conversation; `saved` is whether the
        store accepted it, `id` and `createdAt` what it assigned. A failed save stores nothing and
        tells the room of the failure instead. */
    method SendMessage(socket: Id, conversationId: Id, message: Payload, saved: bool, id: Id, createdAt: nat)
      returns (stored: Option<Message>)
      modifies this
      ensures users == old(users)
      ensures saved <==> stored.Some?
      ensures stored.Some? ==> stored.value == NewMessage(id, message.sender, message.receiver, message.conversation,
                                                          message.body, |RoomMembers(users, message.conversation)| > 1, createdAt)
      ensures messages == if saved then old(messages) + [stored.value] else old(messages)
      ensures log == old(log) + if saved then [MessageSent(conversationId, stored.value)]
                                else [RoomError(conversationId, socket, SendFailed)]
    {
      var count := CountRoomMembers(message.conversation);
      var m := NewMessage(id, message.sender, message.receiver, message.conversation, message.body, count > 1, createdAt);
      if !saved {
        stored := None;
        log := log + [RoomError(conversationId, socket, SendFailed)];
      } else {
        stored := Some(m);
        messages := messages + [m];
        log := log + [MessageSent(conversationId, m)];
      }
    }

    /** `left conversation`: the entry is first reset to `{conversationId: null}` and then deleted;
        the room hears that typing stopped and the socket is disconnected. */
    method LeftConversation(userId: Id, socket: Id, conversationId: Id)
      modifies this
      ensures users == old(users) - {userId}
      ensures messages == old(messages)
      ensures log == old(log) + [Typing(conversationId, socket, false), SocketDisconnected(socket), UserData(users)]
    {
      users := users[userId := Entry(None, None)];
      users := users - {userId};
      log := log + [Typing(conversationId, socket, false)];
      log := log + [SocketDisconnected(socket)];
      log := log + [UserData(users)];
    }

    /** `disconnect`: the entry is deleted and everyone gets the new registry. */
    method Disconnect(userId: Id)
      modifies this
      ensures users == old(users) - {userId}
      ensures messages == old(messages)
      ensures log == old(log) + [UserData(users)]
    {
      users := users - {userId};
      log := log + [UserData(users)];
    }
  }

  /** A subset of a finite set is no larger than the set. */
  lemma {:induction false} SubsetCardinality(a: set<Id>, b: set<Id>)
    requires a <= b
    ensures |a| <= |b|
    decreases |b|
  {
    if a != {} {
      var x :| x in a;
      SubsetCardinality(a - {x}, b - {x});
    }
  }

  /** Once two different users have joined a conversation, a message sent in it is stored seen. */
  lemma TwoJoinedMeansSeen(users: map<Id, Entry>, a: Id, b: Id, conversation: Id)
    requires a != b
    ensures var joined := users[a := Entry(Some(conversation), None)][b := Entry(Some(conversation), None)];
            |RoomMembers(joined, conversation)| > 1
  {
    var joined := users[a := Entry(Some(conversation), None)][b := Entry(Some(conversation), None)];
    assert {a, b} <= RoomMembers(joined, conversation);
    SubsetCardinality({a, b}, RoomMembers(joined, conversation));
  }

  /** A user alone in a conversation's room sends messages that are stored unseen. */
  lemma AloneMeansUnseen(users: map<Id, Entry>, a: Id, conversation: Id)
    requires forall k :: k in users && k != a ==> users[k].conversationId != Some(conversation)
    ensures |RoomMembers(users[a := Entry(Some(conversation), None)], conversation)| == 1
  {
    assert RoomMembers(users[a := Entry(Some(conversation), None)], conversation) == {a};
  }
}
