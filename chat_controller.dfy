/** The chat REST handlers: opening a conversation, the caller's conversations with their latest
    message, a conversation's messages and the caller's unseen messages. The collections are passed
    in as values: the users by id, the conversations and the messages in the store's natural order. */
module ChatController {
  import opened Common
  import opened Models
  import opened Seqs
  import ChatSocket

  const InvalidId := HttpError(400, "Invalid Id")
  const NoSuchUser := HttpError(404, "User Does Not Exist")
  const NotParticipant := HttpError(404, "User is not a participant")

  /** What `getMessages` throws when the conversation does not exist: it reads `.creator` of `null`. */
  const NullConversation := ScriptError("Cannot read properties of null (reading 'creator')")
  /** What `getUnseenMessages` throws on its error paths: it calls a `next` it never declared. */
  const NextUndefined := ScriptError("next is not defined")

  /** The sort keys. */
  function MessageTime(m: Message): int { m.createdAt }
  function ConversationTime(c: Conversation): int { c.createdAt }
  function ConversationId(c: Conversation): Id { c.id }

  /** The message was sent or received by `user`. */
  predicate Involves(m: Message, user: Id) {
    m.sender == user || m.receiver == user
  }

  /** `Message.find({$or: [{sender: user}, {receiver: user}]})`. */
  function MessagesInvolving(messages: seq<Message>, user: Id): (r: seq<Message>)
    ensures forall m :: m in r <==> m in messages && Involves(m, user)
  {
    Filter(messages, (m: Message) => Involves(m, user))
  }

  /** The messages of one conversation. */
  function MessagesOf(messages: seq<Message>, conversation: Id): (r: seq<Message>)
    ensures forall m :: m in r <==> m in messages && m.conversation == conversation
  {
    Filter(messages, (m: Message) => m.conversation == conversation)
  }

  /** `Conversation.find({_id: {$in: ids}})`. */
  function ConversationsWithIds(conversations: seq<Conversation>, ids: set<Id>): (r: seq<Conversation>)
    ensures forall c :: c in r <==> c in conversations && c.id in ids
  {
    Filter(conversations, (c: Conversation) => c.id in ids)
  }

  /** The store keeps one conversation per id. */
  ghost predicate UniqueIds(conversations: seq<Conversation>) {
    DistinctBy(conversations, ConversationId)
  }

  // ---------------------------------------------------------------------------------------------
  // createConversation

  /** The position of the first conversation opened by `creator` with `participant`:
      `Conversation.findOne({$and: [{creator}, {participant}]})`. The pair is ordered. */
  function FindConversation(conversations: seq<Conversation>, creator: Id, participant: Id): (r: Option<nat>)
    ensures r.Some? ==> (r.value < |conversations|
      && conversations[r.value].creator == creator && conversations[r.value].participant == participant)
    ensures r.Some? ==> forall k :: 0 <= k < r.value ==>
      !(conversations[k].creator == creator && conversations[k].participant == participant)
    ensures r.None? ==> forall k :: 0 <= k < |conversations| ==>
      !(conversations[k].creator == creator && conversations[k].participant == participant)
  {
    if conversations == [] then None
    else if conversations[0].creator == creator && conversations[0].participant == participant then Some(0)
    else
      match FindConversation(conversations[1..], creator, participant)
      case None => None
      case Some(k) => Some(k + 1)
  }

  /** The reply of `createConversation` and the conversation collection after it. */
  datatype Created = Created(response: Response<Conversation>, conversations: seq<Conversation>)

  /** `createConversation` by user `id` with `participantId`: returns the existing conversation with
      that ordered pair, or stores a new one (with the fresh store-assigned `newId` and timestamp `now`)
      and returns that. Both replies have status 201. */
  function CreateConversation(valid: Id -> bool, users: map<Id, User>, conversations: seq<Conversation>,
                              id: Id, participantId: Id, newId: Id, now: nat): (r: Created)
    requires forall c :: c in conversations ==> c.id != newId
    ensures !valid(id) || !valid(participantId) ==> r == Created(Failure(InvalidId), conversations)
    ensures valid(id) && valid(participantId) && (id !in users || participantId !in users) ==>
      r == Created(Failure(NoSuchUser), conversations)
    ensures r.response.Success? <==> valid(id) && valid(participantId) && id in users && participantId in users
    ensures r.response.Success? ==> (r.response.status == 201
      && r.response.value.creator == id && r.response.value.participant == participantId
      && r.response.value in r.conversations)
    ensures r.response.Success? && FindConversation(conversations, id, participantId).Some? ==>
      r.conversations == conversations
      && r.response.value == conversations[FindConversation(conversations, id, participantId).value]
    ensures r.response.Success? && FindConversation(conversations, id, participantId).None? ==>
      r.conversations == conversations + [r.response.value]
      && r.response.value == Conversation(newId, id, participantId, now)
    ensures UniqueIds(conversations) ==> UniqueIds(r.conversations)
  {
    if !valid(id) || !valid(participantId) then Created(Failure(InvalidId), conversations)
    else if id !in users || participantId !in users then Created(Failure(NoSuchUser), conversations)
    else
      match FindConversation(conversations, id, participantId)
      case None =>
        var c := Conversation(newId, id, participantId, now);
        Created(Success(201, c), conversations + [c])
      case Some(k) => Created(Success(201, conversations[k]), conversations)
  }

  /** A conversation appended for a pair that had none is the one the pair finds from then on. */
  lemma {:induction false} FindAfterAppend(conversations: seq<Conversation>, c: Conversation)
    requires FindConversation(conversations, c.creator, c.participant).None?
    ensures FindConversation(conversations + [c], c.creator, c.participant) == Some(|conversations|)
  {
    if conversations != [] {
      assert (conversations + [c])[1..] == conversations[1..] + [c];
      FindAfterAppend(conversations[1..], c);
    }
  }

  /** Appending a conversation of another pair does not change what a pair finds. */
  lemma {:induction false} FindIgnoresOtherPair(conversations: seq<Conversation>, c: Conversation, creator: Id, participant: Id)
    requires c.creator != creator || c.participant != participant
    ensures FindConversation(conversations + [c], creator, participant) == FindConversation(conversations, creator, participant)
  {
    if conversations == [] {
      assert [c][1..] == [];
    } else {
      assert (conversations + [c])[1..] == conversations[1..] + [c];
      FindIgnoresOtherPair(conversations[1..], c, creator, participant);
    }
  }

  /** Asking twice for the same ordered pair returns the same conversation, and the second call
      stores nothing: the collection grows by at most one over both calls. */
  lemma CreateTwiceSameConversation(valid: Id -> bool, users: map<Id, User>, conversations: seq<Conversation>,
                                    id: Id, participantId: Id, newId1: Id, now1: nat, newId2: Id, now2: nat)
    requires newId1 != newId2 && forall c :: c in conversations ==> c.id != newId1 && c.id != newId2
    ensures var first := CreateConversation(valid, users, conversations, id, participantId, newId1, now1);
            var second := CreateConversation(valid, users, first.conversations, id, participantId, newId2, now2);
            second.response == first.response && second.conversations == first.conversations
            && |second.conversations| <= |conversations| + 1
  {
  }

  /** The lookup is directional: after user `a` opens a conversation with `b`, `b` opening one with
      `a` stores a second conversation, unless `b` had already opened one. */
  lemma ReverseCreatesSecond(valid: Id -> bool, users: map<Id, User>, conversations: seq<Conversation>,
                             a: Id, b: Id, newId1: Id, now1: nat, newId2: Id, now2: nat)
    requires valid(a) && valid(b) && a in users && b in users && a != b
    requires FindConversation(conversations, a, b).None? && FindConversation(conversations, b, a).None?
    requires newId1 != newId2 && forall c :: c in conversations ==> c.id != newId1 && c.id != newId2
    ensures var first := CreateConversation(valid, users, conversations, a, b, newId1, now1);
            var second := CreateConversation(valid, users, first.conversations, b, a, newId2, now2);
            second.conversations == conversations + [Conversation(newId1, a, b, now1), Conversation(newId2, b, a, now2)]
            && second.response == Success(201, Conversation(newId2, b, a, now2))
  {
  }

  // ---------------------------------------------------------------------------------------------
  // getConversation

  /** A conversation together with its latest message. */
  datatype ConversationView = ConversationView(conversation: Conversation, lastMessage: Message)

  function LastMessageTime(v: ConversationView): int { v.lastMessage.createdAt }
  function ViewId(v: ConversationView): Id { v.conversation.id }

  /** `user` sent or received some message of conversation `id`. */
  ghost predicate Talked(messages: seq<Message>, id: Id, user: Id) {
    exists m :: m in messages && m.conversation == id && Involves(m, user)
  }

  /** `m` is a latest message of conversation `id` among those `user` sent or received. */
  ghost predicate IsLastMessage(m: Message, messages: seq<Message>, id: Id, user: Id) {
    && m in messages && m.conversation == id && Involves(m, user)
    && forall x :: x in messages && x.conversation == id && Involves(x, user) ==> x.createdAt <= m.createdAt
  }

  /** `getLastMessage[0]`: the head of the conversation's messages in `recent`, stably sorted newest
      first. It is a latest message of the conversation in `recent`. */
  function LastMessageOf(recent: seq<Message>, id: Id): (m: Message)
    requires exists x :: x in recent && x.conversation == id
    ensures m in recent && m.conversation == id
    ensures forall x :: x in recent && x.conversation == id ==> x.createdAt <= m.createdAt
  {
    var ofConversation := SortDesc(MessagesOf(recent, id), MessageTime);
    var w :| w in recent && w.conversation == id;
    assert w in ofConversation;
    assert forall x :: x in recent && x.conversation == id ==> x in ofConversation && MessageTime(ofConversation[0]) >= MessageTime(x) by {
      forall x | x in recent && x.conversation == id ensures x in ofConversation && MessageTime(ofConversation[0]) >= MessageTime(x) {
        SortedHeadIsMax(ofConversation, MessageTime, x);
      }
    }
    ofConversation[0]
  }

  /** `getConversation` for user `id`: every conversation the user has a message in, once, with its
      latest such message, newest conversation first. */
  method GetConversation(valid: Id -> bool, users: map<Id, User>, messages: seq<Message>,
                         conversations: seq<Conversation>, id: Id)
    returns (r: Response<seq<ConversationView>>)
    ensures r.Failure? <==> !valid(id) || id !in users
    ensures !valid(id) ==> r == Failure(InvalidId)
    ensures valid(id) && id !in users ==> r == Failure(NoSuchUser)
    ensures r.Success? ==> r.status == 200 && SortedDesc(r.value, LastMessageTime)
    ensures r.Success? ==> forall v :: v in r.value ==>
      v.conversation in conversations && IsLastMessage(v.lastMessage, messages, v.conversation.id, id)
    ensures r.Success? ==> forall c :: c in conversations ==>
      ((exists v :: v in r.value && v.conversation == c) <==> Talked(messages, c.id, id))
    ensures r.Success? && UniqueIds(conversations) ==> DistinctBy(r.value, ViewId)
  {
    if !valid(id) {
      return Failure(InvalidId);
    }
    if id !in users {
      return Failure(NoSuchUser);
    }
    var recent := SortDesc(MessagesInvolving(messages, id), MessageTime);

    var ids := ConversationIds(recent);
    HasMessage(recent, ids);
    var all := SortDesc(ConversationsWithIds(conversations, ids), ConversationTime);
    var views := BuildViews(messages, recent, all, id);
    var sorted := SortDesc(views, LastMessageTime);
    ViewsComplete(messages, recent, ids, conversations, all, views, id);
    ViewsSound(messages, conversations, all, views, id);
    if UniqueIds(conversations) {
      ViewsDistinct(conversations, ids, all, views);
      SortDistinct(views, LastMessageTime, ViewId);
    }
    r := Success(200, sorted);
  }

  /** The first loop of `getConversation`: the set of conversations the messages belong to. */
  method ConversationIds(recent: seq<Message>) returns (ids: set<Id>)
    ensures ids == set k | 0 <= k < |recent| :: recent[k].conversation
  {
    ids := {};
    var i := 0;
    while i < |recent|
      invariant 0 <= i <= |recent|
      invariant ids == set k | 0 <= k < i :: recent[k].conversation
    {
      ids := ids + {recent[i].conversation};
      i := i + 1;
    }
  }

  /** The second loop of `getConversation`: one view per conversation, in order, each with the
      conversation's latest message among `recent`, the user's messages. */
  method BuildViews(messages: seq<Message>, recent: seq<Message>, all: seq<Conversation>, user: Id)
    returns (views: seq<ConversationView>)
    requires forall m :: m in recent <==> m in messages && Involves(m, user)
    requires forall c :: c in all ==> exists m :: m in recent && m.conversation == c.id
    ensures |views| == |all|
    ensures forall k :: 0 <= k < |all| ==> Fits(views[k], all[k], messages, user)
  {
    views := [];
    var j := 0;
    while j < |all|
      invariant 0 <= j <= |all|
      invariant |views| == j
      invariant forall k :: 0 <= k < j ==> Fits(views[k], all[k], messages, user)
    {
      assert all[j] in all;
      var v := ViewOf(messages, recent, user, all[j]);
      views := views + [v];
      j := j + 1;
    }
  }

  /** `v` is the view of conversation `c`: `c` with its latest message among the user's. */
  ghost predicate Fits(v: ConversationView, c: Conversation, messages: seq<Message>, user: Id) {
    v.conversation == c && IsLastMessage(v.lastMessage, messages, c.id, user)
  }

  /** Each collected id comes from one of the messages. */
  lemma HasMessage(recent: seq<Message>, ids: set<Id>)
    requires ids == set k | 0 <= k < |recent| :: recent[k].conversation
    ensures forall x :: x in ids ==> exists m :: m in recent && m.conversation == x
  {
  }

  /** The view of conversation `c`: `c` with its latest message among `recent`, the user's messages. */
  function ViewOf(messages: seq<Message>, recent: seq<Message>, user: Id, c: Conversation): (v: ConversationView)
    requires forall m :: m in recent <==> m in messages && Involves(m, user)
    requires exists m :: m in recent && m.conversation == c.id
    ensures Fits(v, c, messages, user)
  {
    var last := LastMessageOf(recent, c.id);
    LastOfRecentIsLast(messages, recent, user, c.id, last);
    ConversationView(c, last)
  }

  /** Every stored conversation the user has a message in gets a view. */
  lemma ViewsComplete(messages: seq<Message>, recent: seq<Message>, ids: set<Id>, conversations: seq<Conversation>,
                      all: seq<Conversation>, views: seq<ConversationView>, user: Id)
    requires forall m :: m in recent <==> m in messages && Involves(m, user)
    requires ids == set k | 0 <= k < |recent| :: recent[k].conversation
    requires forall c :: c in all <==> c in conversations && c.id in ids
    requires |views| == |all| && forall k :: 0 <= k < |all| ==> Fits(views[k], all[k], messages, user)
    ensures forall c :: c in conversations && Talked(messages, c.id, user) ==> exists v :: v in views && v.conversation == c
  {
  }

  /** Every view names a stored conversation the user has a message in, with its latest such message. */
  lemma ViewsSound(messages: seq<Message>, conversations: seq<Conversation>, all: seq<Conversation>,
                   views: seq<ConversationView>, user: Id)
    requires forall c :: c in all ==> c in conversations
    requires |views| == |all| && forall k :: 0 <= k < |all| ==> Fits(views[k], all[k], messages, user)
    ensures forall v :: v in views ==>
      v.conversation in conversations && IsLastMessage(v.lastMessage, messages, v.conversation.id, user)
    ensures forall v :: v in views ==> Talked(messages, v.conversation.id, user)
  {
  }

  /** Views built from conversations with distinct ids have distinct ids. */
  lemma ViewsDistinct(conversations: seq<Conversation>, ids: set<Id>, all: seq<Conversation>, views: seq<ConversationView>)
    requires UniqueIds(conversations)
    requires all == SortDesc(ConversationsWithIds(conversations, ids), ConversationTime)
    requires |views| == |all| && forall k :: 0 <= k < |all| ==> views[k].conversation == all[k]
    ensures DistinctBy(views, ViewId)
  {
    FilterDistinct(conversations, (c: Conversation) => c.id in ids, ConversationId);
    SortDistinct(ConversationsWithIds(conversations, ids), ConversationTime, ConversationId);
    forall a, b | 0 <= a < b < |views| ensures ViewId(views[a]) != ViewId(views[b]) {
      assert ConversationId(all[a]) != ConversationId(all[b]);
    }
  }

  /** A latest message of a conversation among the caller's messages is a latest one in the store. */
  lemma LastOfRecentIsLast(messages: seq<Message>, recent: seq<Message>, user: Id, id: Id, last: Message)
    requires forall m :: m in recent <==> m in messages && Involves(m, user)
    requires last in recent && last.conversation == id
    requires forall x :: x in recent && x.conversation == id ==> x.createdAt <= last.createdAt
    ensures IsLastMessage(last, messages, id, user)
  {
  }

  // ---------------------------------------------------------------------------------------------
  // getMessages

  /** The reply of `getMessages`. */
  datatype MessageList = MessageList(messages: seq<Message>, conversation: Conversation)

  /** The position of the conversation with id `id`: `Conversation.findById(id)`. */
  function FindById(conversations: seq<Conversation>, id: Id): (r: Option<nat>)
    ensures r.Some? ==> r.value < |conversations| && conversations[r.value].id == id
    ensures r.None? ==> forall c :: c in conversations ==> c.id != id
  {
    if conversations == [] then None
    else if conversations[0].id == id then Some(0)
    else
      match FindById(conversations[1..], id)
      case None => None
      case Some(k) => Some(k + 1)
  }

  /** `getMessages` by user `id` for `conversationId`: only the conversation's creator or participant
      may read it (anyone else gets 404); the reply holds all its messages, newest first. */
  function GetMessages(valid: Id -> bool, users: map<Id, User>, messages: seq<Message>,
                       conversations: seq<Conversation>, id: Id, conversationId: Id): (r: Response<MessageList>)
    ensures !valid(id) || !valid(conversationId) ==> r == Failure(InvalidId)
    ensures valid(id) && valid(conversationId) && id !in users ==> r == Failure(NoSuchUser)
    ensures valid(id) && valid(conversationId) && id in users && FindById(conversations, conversationId).None? ==>
      r == Failure(NullConversation)
    ensures valid(id) && valid(conversationId) && id in users && FindById(conversations, conversationId).Some? ==>
      (var c := conversations[FindById(conversations, conversationId).value];
       if id == c.creator || id == c.participant then r.Success? else r == Failure(NotParticipant))
    ensures r.Success? ==> (r.status == 200
      && r.value.conversation in conversations && r.value.conversation.id == conversationId
      && (id == r.value.conversation.creator || id == r.value.conversation.participant))
    ensures r.Success? ==> (SortedDesc(r.value.messages, MessageTime)
      && multiset(r.value.messages) == multiset(MessagesOf(messages, conversationId))
      && forall m :: m in r.value.messages <==> m in messages && m.conversation == conversationId)
  {
    if !valid(id) || !valid(conversationId) then Failure(InvalidId)
    else if id !in users then Failure(NoSuchUser)
    else
      match FindById(conversations, conversationId)
      case None => Failure(NullConversation)
      case Some(k) =>
        var c := conversations[k];
        if id != c.creator && id != c.participant then Failure(NotParticipant)
        else Success(200, MessageList(SortDesc(MessagesOf(messages, c.id), MessageTime), c))
  }

  // ---------------------------------------------------------------------------------------------
  // getUnseenMessages

  /** `Message.find({$and: [{receiver: user}, {seen: false}]})`. */
  function UnseenFor(messages: seq<Message>, user: Id): (r: seq<Message>)
    ensures forall m :: m in r <==> m in messages && m.receiver == user && !m.seen
  {
    Filter(messages, (m: Message) => m.receiver == user && !m.seen)
  }

  /** `getUnseenMessages` for user `id`: the messages addressed to the user and not yet seen, in store
      order. Its error paths call an undeclared `next`, so they end in an exception. */
  function GetUnseenMessages(valid: Id -> bool, users: map<Id, User>, messages: seq<Message>, id: Id): (r: Response<seq<Message>>)
    ensures r.Failure? <==> !valid(id) || id !in users
    ensures r.Failure? ==> r.error == NextUndefined
    ensures r.Success? ==> (r.status == 200
      && forall m :: m in r.value <==> m in messages && m.receiver == id && !m.seen)
  {
    if !valid(id) || id !in users then Failure(NextUndefined)
    else Success(200, UnseenFor(messages, id))
  }

  /** After `message seen` by `user` in `conversation`, none of the user's unseen messages belongs to
      that conversation, and the user's unseen messages of other conversations are still unseen. */
  lemma UnseenAfterMessageSeen(messages: seq<Message>, conversation: Id, user: Id)
    ensures forall m :: m in UnseenFor(ChatSocket.MarkSeen(messages, conversation, user), user) ==> m.conversation != conversation
    ensures forall m :: m in UnseenFor(messages, user) && m.conversation != conversation ==>
      m in UnseenFor(ChatSocket.MarkSeen(messages, conversation, user), user)
  {
  }
}
