/** The post handlers: creating, updating and deleting one's own posts, the like toggle, and the
    queries that only ever show public, active posts. */
module PostController {
  import opened Common
  import opened Models
  import opened Seqs

  const InvalidId := HttpError(400, "Invalid Id")
  const UserNotFound := HttpError(404, "User not found")
  const PostNotFound := HttpError(404, "Post not found")

  /** The raw value of a request field the schema types as a boolean: a JSON boolean, a string
      (every field of a multipart form arrives as one), a JSON integer or any other JSON value. */
  datatype Flag = BoolFlag(b: bool) | StringFlag(s: string) | NumberFlag(n: int) | OtherFlag

  /** The fields a create or update request may carry; `otherKeys` names any further keys of the
      body. */
  datatype PostBody = PostBody(title: Option<string>, content: Option<string>, status: Option<string>,
                               allowComments: Option<Flag>, otherKeys: set<string>)

  /** ASCII lower case; for the letters of `true` and `false` this is what `toLowerCase` does, since
      no other character lowers to them. */
  function Lower(s: string): (r: string)
    ensures |r| == |s|
    ensures forall i :: 0 <= i < |s| ==> r[i] == (if 'A' <= s[i] <= 'Z' then s[i] - 'A' + 'a' else s[i])
  {
    if s == [] then []
    else [if 'A' <= s[0] <= 'Z' then s[0] - 'A' + 'a' else s[0]] + Lower(s[1..])
  }

  /** What the schema's boolean admits: a boolean, or the text `true` or `false` in any case. */
  predicate FlagAccepted(f: Flag) {
    f.BoolFlag? || (f.StringFlag? && (Lower(f.s) == "true" || Lower(f.s) == "false"))
  }

  /** The boolean the schema reads an admitted flag as. */
  function SchemaValue(f: Flag): bool
    requires FlagAccepted(f)
  {
    if f.BoolFlag? then f.b else Lower(f.s) == "true"
  }

  /** The texts the document's boolean cast reads as true, and as false. */
  const TrueTexts: set<string> := {"true", "1", "yes"}
  const FalseTexts: set<string> := {"false", "0", "no"}

  /** What the document's boolean cast takes: a boolean, one of those texts exactly, or the
      number 1 or 0. */
  predicate FlagCasts(f: Flag) {
    match f
    case BoolFlag(_) => true
    case StringFlag(s) => s in TrueTexts || s in FalseTexts
    case NumberFlag(n) => n == 0 || n == 1
    case OtherFlag => false
  }

  /** The boolean the cast stores. */
  function CastValue(f: Flag): bool
    requires FlagCasts(f)
  {
    match f
    case BoolFlag(b) => b
    case StringFlag(s) => s in TrueTexts
    case NumberFlag(n) => n == 1
  }

  /** On the flags the schema admits, the cast takes exactly a boolean or the lower-case `true` or
      `false`, and then stores what the schema read; so an admitted flag in another case, such as
      `True`, fails the cast. */
  lemma CastAgreesWithSchema(f: Flag)
    ensures FlagAccepted(f) ==> (FlagCasts(f) <==> f.BoolFlag? || f.s == "true" || f.s == "false")
    ensures FlagAccepted(f) && FlagCasts(f) ==> CastValue(f) == SchemaValue(f)
  {
    if f.StringFlag? && FlagAccepted(f) {
      AdmittedTextCasts(f.s);
    }
  }

  /** An admitted text is one of the cast's texts exactly when it is `true` or `false` in lower
      case; the cast's other texts are all shorter. */
  lemma AdmittedTextCasts(s: string)
    requires Lower(s) == "true" || Lower(s) == "false"
    ensures (s in TrueTexts || s in FalseTexts) <==> s == "true" || s == "false"
    ensures s in TrueTexts <==> s == "true"
  {
    assert |s| >= 4;
    assert s != "1" && s != "yes" && s != "0" && s != "no";
  }

  /** The cast takes more than the schema admits: `yes` and the number 1 cast to true, but the schema
      refuses both with a 400 before the cast runs. */
  lemma CastWiderThanSchema()
    ensures FlagCasts(StringFlag("yes")) && CastValue(StringFlag("yes"))
    ensures !FlagAccepted(StringFlag("yes"))
    ensures FlagCasts(NumberFlag(1)) && !FlagAccepted(NumberFlag(1))
  {
    assert Lower("yes") == "yes";
  }

  /** `True` passes the schema but not the cast. */
  lemma MixedCaseNotCast()
    ensures FlagAccepted(StringFlag("True")) && !FlagCasts(StringFlag("True"))
  {
    assert Lower("True") == "true";
  }

  // ---------------------------------------------------------------------------------------------
  // likeDislikeToggle

  /** The likes after the toggle by `user`: pushed when absent, every occurrence pulled when present. */
  function Toggled(likes: seq<Id>, user: Id): seq<Id> {
    if user in likes then Pull(likes, user) else likes + [user]
  }

  /** A toggle flips the user's own like and leaves everybody else's as it was. */
  lemma ToggleFlips(likes: seq<Id>, user: Id)
    ensures user in Toggled(likes, user) <==> user !in likes
    ensures forall other :: other != user ==> (other in Toggled(likes, user) <==> other in likes)
  {
  }

  /** Two toggles restore who likes the post; starting from not liked they restore the list itself. */
  lemma ToggleTwice(likes: seq<Id>, user: Id)
    ensures forall x :: x in Toggled(Toggled(likes, user), user) <==> x in likes
    ensures user !in likes ==> Toggled(Toggled(likes, user), user) == likes
  {
    if user !in likes {
      PullAfterPush(likes, user);
      PullAbsent(likes, user);
    }
  }

  /** `likeDislikeToggle` by the caller `id` on post `postId`. */
  method LikeDislikeToggle(db: Db, valid: Id -> bool, id: Id, postId: Id) returns (r: Response<string>)
    modifies db`posts
    ensures !valid(id) || !valid(postId) ==> r == Failure(InvalidId)
    ensures valid(id) && valid(postId) && id !in db.users ==> r == Failure(UserNotFound)
    ensures valid(id) && valid(postId) && id in db.users && postId !in old(db.posts) ==> r == Failure(PostNotFound)
    ensures r.Failure? ==> db.posts == old(db.posts)
    ensures r.Success? ==> (postId in old(db.posts)
      && r == Success(200, if id in old(db.posts)[postId].likes then "Post disliked successfully" else "Post liked successfully")
      && db.posts == old(db.posts)[postId := old(db.posts)[postId].(likes := Toggled(old(db.posts)[postId].likes, id))])
    ensures r.Success? <==> valid(id) && valid(postId) && id in db.users && postId in old(db.posts)
  {
    if !valid(id) || !valid(postId) {
      return Failure(InvalidId);
    }
    if id !in db.users {
      return Failure(UserNotFound);
    }
    if postId !in db.posts {
      return Failure(PostNotFound);
    }
    var post := db.posts[postId];
    if id !in post.likes {
      db.posts := db.posts[postId := post.(likes := post.likes + [id])];
      r := Success(200, "Post liked successfully");
    } else {
      db.posts := db.posts[postId := post.(likes := Pull(post.likes, id))];
      r := Success(200, "Post disliked successfully");
    }
  }

  // ---------------------------------------------------------------------------------------------
  // createPost

  /** The request schema: title and content are required non-empty strings, status if present is
      `public` or `private`, `allowComments` if present a boolean, and no other key is allowed. */
  predicate BodyAccepted(body: PostBody) {
    Truthy(body.title) && Truthy(body.content) && (body.status.Some? ==> ParseStatus(body.status.value).Some?)
    && (body.allowComments.Some? ==> FlagAccepted(body.allowComments.value))
    && body.otherKeys == {}
  }

  /** The raw `allowComments` goes into the new document, so its cast decides whether the save
      succeeds. */
  predicate BodyCasts(body: PostBody) {
    body.allowComments.Some? ==> FlagCasts(body.allowComments.value)
  }

  /** The post a create request stores: the schema's defaults for what the body leaves out, the
      uploaded picture or an empty one, and the caller as author. */
  function NewPost(body: PostBody, author: Id, upload: Option<Image>): (p: Post)
    requires BodyAccepted(body) && BodyCasts(body)
    ensures p.author == author && p.title == body.title.value && p.content == body.content.value
    ensures p.status == (if body.status.Some? then ParseStatus(body.status.value).value else Public)
    ensures p.image == (if upload.Some? then upload.value else Image("", ""))
    ensures p.allowComments == (body.allowComments.None? || SchemaValue(body.allowComments.value))
    ensures p.isActive && p.likes == [] && p.comments == [] && p.categories == []
  {
    Post(body.title.value, body.content.value,
         if body.status.Some? then ParseStatus(body.status.value).value else Public,
         if upload.Some? then upload.value else Image("", ""),
         author, true, if body.allowComments.Some? then CastValue(body.allowComments.value) else true,
         [], [], [])
  }

  /** `createPost` by the caller `id`. `schemaMessage` is the text the request schema gives for a
      body it refuses, `upload` the picture the image store kept (if a file came), and `newId` the
      fresh id the store assigns. */
  method CreatePost(db: Db, valid: Id -> bool, id: Id, body: PostBody, schemaMessage: string,
                    upload: Option<Image>, newId: Id) returns (r: Response<Post>)
    requires newId !in db.posts
    modifies db`posts
    ensures !valid(id) ==> r == Failure(InvalidId)
    ensures valid(id) && id !in db.users ==> r == Failure(UserNotFound)
    ensures valid(id) && id in db.users && !BodyAccepted(body) ==> r == Failure(HttpError(400, schemaMessage))
    ensures valid(id) && id in db.users && BodyAccepted(body) && !BodyCasts(body) ==>
      r == Failure(ValidationError("allowComments"))
    ensures r.Failure? ==> db.posts == old(db.posts)
    ensures r.Success? <==> valid(id) && id in db.users && BodyAccepted(body) && BodyCasts(body)
    ensures r.Success? ==> (r == Success(201, NewPost(body, id, upload))
      && db.posts == old(db.posts)[newId := r.value])
  {
    if !valid(id) {
      return Failure(InvalidId);
    }
    if id !in db.users {
      return Failure(UserNotFound);
    }
    if !BodyAccepted(body) {
      return Failure(HttpError(400, schemaMessage));
    }
    if !BodyCasts(body) {
      // The cast of the raw value fails when the post is saved.
      return Failure(ValidationError("allowComments"));
    }
    var post := NewPost(body, id, upload);
    db.posts := db.posts[newId := post];
    r := Success(201, post);
  }

  // ---------------------------------------------------------------------------------------------
  // updatePost and deletePost

  /** A status the update would store: a non-empty value outside the enum makes the save fail. */
  predicate StatusAccepted(body: PostBody) {
    Truthy(body.status) ==> ParseStatus(body.status.value).Some?
  }

  /** The post after the update's field merge: title, content and status replaced only by non-empty
      values, `allowComments` only by a JSON boolean, the picture only by a new upload. */
  function Merged(p: Post, body: PostBody, upload: Option<Image>): Post
    requires StatusAccepted(body)
  {
    p.(title := if Truthy(body.title) then body.title.value else p.title,
       content := if Truthy(body.content) then body.content.value else p.content,
       status := if Truthy(body.status) then ParseStatus(body.status.value).value else p.status,
       allowComments := if body.allowComments.Some? && body.allowComments.value.BoolFlag?
                        then body.allowComments.value.b else p.allowComments,
       image := if upload.Some? then upload.value else p.image)
  }

  /** The merge never touches the author, the activity flag, the likes, the categories or the comments. */
  lemma MergeKeepsTheRest(p: Post, body: PostBody, upload: Option<Image>)
    requires StatusAccepted(body)
    ensures var q := Merged(p, body, upload);
            q.author == p.author && q.isActive == p.isActive && q.likes == p.likes
            && q.categories == p.categories && q.comments == p.comments
  {
  }

  /** An update whose fields are all absent or empty and carries no picture changes nothing. */
  lemma EmptyUpdateIsIdentity(p: Post, title: Option<string>, content: Option<string>, status: Option<string>)
    requires !Truthy(title) && !Truthy(content) && !Truthy(status)
    ensures Merged(p, PostBody(title, content, status, None, {}), None) == p
  {
  }

  /** A multipart `allowComments` of `false` turns comments off on create, while an update, which
      takes only JSON booleans, leaves the flag as it was. */
  lemma TextFalseCreateOnly(p: Post, body: PostBody, author: Id, upload: Option<Image>)
    requires BodyAccepted(body) && body.allowComments == Some(StringFlag("false"))
    ensures !NewPost(body, author, upload).allowComments
    ensures Merged(p, body, upload).allowComments == p.allowComments
  {
    assert Lower("false") == "false";
  }

  /** Repeating an update gives the same post. */
  lemma MergeIdempotent(p: Post, body: PostBody, upload: Option<Image>)
    requires StatusAccepted(body)
    ensures Merged(Merged(p, body, upload), body, upload) == Merged(p, body, upload)
  {
  }

  /** `updatePost` by the caller `id` of post `postId`. The post id is not checked first, so a
      malformed one makes its lookup throw. */
  method UpdatePost(db: Db, valid: Id -> bool, id: Id, postId: Id, body: PostBody, upload: Option<Image>)
    returns (r: Response<Post>)
    modifies db`posts
    ensures !valid(id) ==> r == Failure(InvalidId)
    ensures valid(id) && id !in db.users ==> r == Failure(UserNotFound)
    ensures valid(id) && id in db.users && !valid(postId) ==> r == Failure(CastError(postId))
    ensures valid(id) && id in db.users && valid(postId) && postId !in old(db.posts) ==> r == Failure(PostNotFound)
    ensures valid(id) && id in db.users && valid(postId) && postId in old(db.posts) && old(db.posts)[postId].author != id ==>
      r == Failure(HttpError(403, "You are not authorized to update this post"))
    ensures (valid(id) && id in db.users && valid(postId) && postId in old(db.posts) && old(db.posts)[postId].author == id
      && !StatusAccepted(body)) ==> r == Failure(ValidationError("status"))
    ensures r.Failure? ==> db.posts == old(db.posts)
    ensures r.Success? <==> (valid(id) && id in db.users && valid(postId) && postId in old(db.posts)
      && old(db.posts)[postId].author == id && StatusAccepted(body))
    ensures r.Success? ==> (r == Success(200, Merged(old(db.posts)[postId], body, upload))
      && db.posts == old(db.posts)[postId := r.value])
  {
    if !valid(id) {
      return Failure(InvalidId);
    }
    if id !in db.users {
      return Failure(UserNotFound);
    }
    if !valid(postId) {
      return Failure(CastError(postId));
    }
    if postId !in db.posts {
      return Failure(PostNotFound);
    }
    var post := db.posts[postId];
    if post.author != id {
      return Failure(HttpError(403, "You are not authorized to update this post"));
    }
    if Truthy(body.title) {
      post := post.(title := body.title.value);
    }
    if Truthy(body.content) {
      post := post.(content := body.content.value);
    }
    if Truthy(body.status) {
      var status := ParseStatus(body.status.value);
      if status.None? {
        // The schema's enum refuses the value when the post is saved.
        return Failure(ValidationError("status"));
      }
      post := post.(status := status.value);
    }
    if body.allowComments.Some? && body.allowComments.value.BoolFlag? {
      post := post.(allowComments := body.allowComments.value.b);
    }
    if upload.Some? {
      post := post.(image := upload.value);
    }
    db.posts := db.posts[postId := post];
    r := Success(200, post);
  }

  /** `deletePost` by the caller `id` of post `postId`. */
  method DeletePost(db: Db, valid: Id -> bool, id: Id, postId: Id) returns (r: Response<string>)
    modifies db`posts
    ensures !valid(id) ==> r == Failure(InvalidId)
    ensures valid(id) && id !in db.users ==> r == Failure(UserNotFound)
    ensures valid(id) && id in db.users && !valid(postId) ==> r == Failure(CastError(postId))
    ensures valid(id) && id in db.users && valid(postId) && postId !in old(db.posts) ==> r == Failure(PostNotFound)
    ensures valid(id) && id in db.users && valid(postId) && postId in old(db.posts) && old(db.posts)[postId].author != id ==>
      r == Failure(HttpError(403, "You are not authorized to delete this post"))
    ensures r.Failure? ==> db.posts == old(db.posts)
    ensures r.Success? <==> (valid(id) && id in db.users && valid(postId) && postId in old(db.posts)
      && old(db.posts)[postId].author == id)
    ensures r.Success? ==> r == Success(200, "Post deleted successfully") && db.posts == old(db.posts) - {postId}
  {
    if !valid(id) {
      return Failure(InvalidId);
    }
    if id !in db.users {
      return Failure(UserNotFound);
    }
    if !valid(postId) {
      return Failure(CastError(postId));
    }
    if postId !in db.posts {
      return Failure(PostNotFound);
    }
    if db.posts[postId].author != id {
      return Failure(HttpError(403, "You are not authorized to delete this post"));
    }
    db.posts := db.posts - {postId};
    r := Success(200, "Post deleted successfully");
  }

  // ---------------------------------------------------------------------------------------------
  // The public queries

  /** What every query shows: public posts that are still active. */
  predicate Visible(p: Post) {
    p.status == Public && p.isActive
  }

  /** `getPostById`: found only when the post is public and active. */
  function GetPostById(valid: Id -> bool, posts: map<Id, Post>, id: Id): (r: Response<Post>)
    ensures !valid(id) ==> r == Failure(InvalidId)
    ensures valid(id) ==> (r.Success? <==> id in posts && Visible(posts[id]))
    ensures valid(id) && r.Failure? ==> r == Failure(PostNotFound)
    ensures r.Success? ==> r.status == 200 && r.value == posts[id]
  {
    if !valid(id) then Failure(InvalidId)
    else if id in posts && Visible(posts[id]) then Success(200, posts[id])
    else Failure(PostNotFound)
  }

  /** `getAllPublicPosts`: the public, active posts, by id. */
  function GetAllPublicPosts(posts: map<Id, Post>): (r: Response<map<Id, Post>>)
    ensures r.Success? && r.status == 200
    ensures forall k :: k in r.value <==> k in posts && Visible(posts[k])
    ensures forall k :: k in r.value ==> r.value[k] == posts[k]
  {
    Success(200, map k | k in posts && Visible(posts[k]) :: posts[k])
  }

  /** The public, active posts written by `author`. */
  function VisiblePostsBy(posts: map<Id, Post>, author: Id): (r: map<Id, Post>)
    ensures forall k :: k in r <==> k in posts && posts[k].author == author && Visible(posts[k])
    ensures forall k :: k in r ==> r[k] == posts[k]
  {
    map k | k in posts && posts[k].author == author && Visible(posts[k]) :: posts[k]
  }

  /** Some user has this username. */
  predicate HasUsername(users: map<Id, User>, username: string) {
    exists u :: u in users && users[u].username == username
  }

  /** The store's unique index on usernames. */
  ghost predicate UniqueUsernames(users: map<Id, User>) {
    forall a, b :: a in users && b in users && users[a].username == users[b].username ==> a == b
  }

  /** `getAllPostsByUsername`: the public, active posts whose author has this username. */
  function GetAllPostsByUsername(users: map<Id, User>, posts: map<Id, Post>, username: string)
    : (r: Response<map<Id, Post>>)
    ensures username == "" ==> r == Failure(HttpError(400, "Invalid Username"))
    ensures username != "" && !HasUsername(users, username) ==> r == Failure(UserNotFound)
    ensures r.Success? <==> username != "" && HasUsername(users, username)
    ensures r.Success? ==> r.status == 200
    ensures r.Success? ==> forall k :: k in r.value <==>
      k in posts && Visible(posts[k]) && posts[k].author in users && users[posts[k].author].username == username
    ensures r.Success? ==> forall k :: k in r.value ==> r.value[k] == posts[k]
  {
    if username == "" then Failure(HttpError(400, "Invalid Username"))
    else if !HasUsername(users, username) then Failure(UserNotFound)
    else Success(200, map k | k in posts && Visible(posts[k]) && posts[k].author in users
                                 && users[posts[k].author].username == username :: posts[k])
  }

  /** With unique usernames, a user's page holds exactly that user's public, active posts. */
  lemma PostsByUsernameAreTheUsers(users: map<Id, User>, posts: map<Id, Post>, u: Id)
    requires UniqueUsernames(users) && u in users && users[u].username != ""
    ensures GetAllPostsByUsername(users, posts, users[u].username) == Success(200, VisiblePostsBy(posts, u))
  {
    var r := GetAllPostsByUsername(users, posts, users[u].username);
    assert r.Success?;
    assert r.value.Keys == VisiblePostsBy(posts, u).Keys;
  }

  /** `getTimelinePosts` for the caller `id`: one collection per followed user, in the order of
      `followings`, each holding that user's public, active posts. */
  function GetTimelinePosts(valid: Id -> bool, users: map<Id, User>, posts: map<Id, Post>, id: Id)
    : (r: Response<seq<map<Id, Post>>>)
    ensures !valid(id) ==> r == Failure(InvalidId)
    ensures valid(id) && id !in users ==> r == Failure(UserNotFound)
    ensures r.Success? <==> valid(id) && id in users
    ensures r.Success? ==> r.status == 200 && |r.value| == |users[id].followings|
    ensures r.Success? ==> forall i, k :: 0 <= i < |r.value| ==>
      (k in r.value[i] <==> k in posts && posts[k].author == users[id].followings[i] && Visible(posts[k]))
    ensures r.Success? ==> forall i, k :: 0 <= i < |r.value| && k in r.value[i] ==> r.value[i][k] == posts[k]
  {
    if !valid(id) then Failure(InvalidId)
    else if id !in users then Failure(UserNotFound)
    else
      var followings := users[id].followings;
      Success(200, seq(|followings|, i requires 0 <= i < |followings| => VisiblePostsBy(posts, followings[i])))
  }

  /** A post is found by id exactly when it is among the public posts. */
  lemma ByIdMatchesPublicList(valid: Id -> bool, posts: map<Id, Post>, id: Id)
    requires valid(id)
    ensures GetPostById(valid, posts, id).Success? <==> id in GetAllPublicPosts(posts).value
  {
  }

  /** Every post on a timeline or a user's page is among the public posts. */
  lemma ListsArePublic(valid: Id -> bool, users: map<Id, User>, posts: map<Id, Post>, id: Id, username: string)
    ensures GetTimelinePosts(valid, users, posts, id).Success? ==>
      forall i, k :: (0 <= i < |GetTimelinePosts(valid, users, posts, id).value|
        && k in GetTimelinePosts(valid, users, posts, id).value[i]) ==> k in GetAllPublicPosts(posts).value
    ensures GetAllPostsByUsername(users, posts, username).Success? ==>
      forall k :: k in GetAllPostsByUsername(users, posts, username).value ==> k in GetAllPublicPosts(posts).value
  {
  }
}
