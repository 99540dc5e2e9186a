/** The documents of the store, one datatype per schema, and the store itself. */
module Models {
  import opened Common

  /** A user. The schema declares only username, email and password; the follow
      controllers also keep a `followers` and a `followings` list of user ids on it. */
  datatype User = User(
    username: string,
    email: string,
    password: string,
    followers: seq<Id>,
    followings: seq<Id>)

  /** The `status` enum of a post. */
  datatype Status = Public | Private

  /** The schema's enum check on `status`: only `'public'` and `'private'` are stored. */
  function ParseStatus(s: string): Option<Status> {
    if s == "public" then Some(Public)
    else if s == "private" then Some(Private)
    else None
  }

  /** Where a post's picture lives in the external image store (both `''` when there is none). */
  datatype Image = Image(url: string, filename: string)

  datatype Post = Post(
    title: string,
    content: string,
    status: Status,
    image: Image,
    author: Id,
    isActive: bool,
    allowComments: bool,
    likes: seq<Id>,
    categories: seq<Id>,
    comments: seq<Id>)

  datatype Comment = Comment(text: string, author: Id, isActive: bool)

  /** A conversation between the user who opened it and the other participant. */
  datatype Conversation = Conversation(id: Id, creator: Id, participant: Id, createdAt: nat)

  /** A chat message; `createdAt` is the store's creation timestamp. */
  datatype Message = Message(
    id: Id,
    sender: Id,
    receiver: Id,
    conversation: Id,
    body: string,
    seen: bool,
    createdAt: nat)

  /** A new message with the schema's defaults: an absent body is `''`. */
  function NewMessage(id: Id, sender: Id, receiver: Id, conversation: Id, body: Option<string>, seen: bool, createdAt: nat): Message {
    Message(id, sender, receiver, conversation, if body.Some? then body.value else "", seen, createdAt)
  }

  /** The document store's collections that the REST controllers change in place, keyed by id. */
  class Db {
    var users: map<Id, User>
    var posts: map<Id, Post>
    var comments: map<Id, Comment>

    constructor (users: map<Id, User>, posts: map<Id, Post>, comments: map<Id, Comment>)
      ensures this.users == users && this.posts == posts && this.comments == comments
    {
      this.users := users;
      this.posts := posts;
      this.comments := comments;
    }
  }
}
