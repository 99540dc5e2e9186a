/** The comment handlers: a comment is created on a post that allows comments and its id is pushed
    onto the post's `comments` list; its author may change its text or delete it, and deleting also
    filters its id out of the named post's list. */
module CommentController {
  import opened Common
  import opened Models
  import opened Seqs

  const InvalidId := HttpError(400, "Invalid Id")
  const UserNotFound := HttpError(404, "User not found")
  const PostNotFound := HttpError(404, "Post not found")
  const CommentNotFound := HttpError(404, "Comment not found")
  const CommentsClosed := HttpError(400, "Comments are not allowed for this post")

  /** The posts after comment `cid` is pushed onto the list of post `postId`. */
  function Attach(posts: map<Id, Post>, postId: Id, cid: Id): map<Id, Post>
    requires postId in posts
  {
    posts[postId := posts[postId].(comments := posts[postId].comments + [cid])]
  }

  /** The posts after every occurrence of `cid` is filtered out of the list of post `postId`. */
  function Detach(posts: map<Id, Post>, postId: Id, cid: Id): map<Id, Post>
    requires postId in posts
  {
    posts[postId := posts[postId].(comments := Pull(posts[postId].comments, cid))]
  }

  /** Every id on a post's `comments` list names a stored comment. */
  ghost predicate CommentsResolve(posts: map<Id, Post>, comments: map<Id, Comment>) {
    forall p, c :: p in posts && c in posts[p].comments ==> c in comments
  }

  /** `createComment` by the caller `id` on post `postId`; `newId` is the fresh id the store assigns. The
      schema requires a non-empty `text`, so an absent or empty one fails when the comment is saved. */
  method CreateComment(db: Db, valid: Id -> bool, id: Id, postId: Id, text: Option<string>, newId: Id)
    returns (r: Response<Comment>)
    requires newId !in db.comments
    modifies db`comments, db`posts
    ensures !valid(id) || !valid(postId) ==> r == Failure(InvalidId)
    ensures valid(id) && valid(postId) && id !in db.users ==> r == Failure(UserNotFound)
    ensures valid(id) && valid(postId) && id in db.users && postId !in old(db.posts) ==> r == Failure(PostNotFound)
    ensures valid(id) && valid(postId) && id in db.users && postId in old(db.posts) && !old(db.posts)[postId].allowComments ==>
      r == Failure(CommentsClosed)
    ensures (valid(id) && valid(postId) && id in db.users && postId in old(db.posts) && old(db.posts)[postId].allowComments
      && !Truthy(text)) ==> r == Failure(ValidationError("text"))
    ensures r.Failure? ==> db.comments == old(db.comments) && db.posts == old(db.posts)
    ensures r.Success? <==> (valid(id) && valid(postId) && id in db.users && postId in old(db.posts)
      && old(db.posts)[postId].allowComments && Truthy(text))
    ensures r.Success? ==> (r == Success(201, Comment(text.value, id, true))
      && db.comments == old(db.comments)[newId := r.value]
      && db.posts == Attach(old(db.posts), postId, newId))
  {
    if !valid(id) || !valid(postId) {
      return Failure(InvalidId);
    }
    if id !in db.users {
      return Failure(UserNotFound);
    }
    if postId !in db.posts {
      return Failure(PostNotFound);
    }
    var post := db.posts[postId];
    if !post.allowComments {
      return Failure(CommentsClosed);
    }
    if !Truthy(text) {
      return Failure(ValidationError("text"));
    }
    var comment := Comment(text.value, id, true);
    db.comments := db.comments[newId := comment];
    db.posts := db.posts[postId := post.(comments := post.comments + [newId])];
    r := Success(201, comment);
  }

  /** `updateComment` by the caller `id`: only the author may replace the text, and anyone else
      gets a 400. */
  method UpdateComment(db: Db, valid: Id -> bool, id: Id, commentId: Id, text: Option<string>)
    returns (r: Response<Comment>)
    modifies db`comments
    ensures !valid(id) || !valid(commentId) ==> r == Failure(InvalidId)
    ensures valid(id) && valid(commentId) && id !in db.users ==> r == Failure(UserNotFound)
    ensures valid(id) && valid(commentId) && id in db.users && commentId !in old(db.comments) ==> r == Failure(CommentNotFound)
    ensures (valid(id) && valid(commentId) && id in db.users && commentId in old(db.comments)
      && old(db.comments)[commentId].author != id) ==>
      r == Failure(HttpError(400, "You are not authorized to update this comment"))
    ensures (valid(id) && valid(commentId) && id in db.users && commentId in old(db.comments)
      && old(db.comments)[commentId].author == id && !Truthy(text)) ==> r == Failure(ValidationError("text"))
    ensures r.Failure? ==> db.comments == old(db.comments)
    ensures r.Success? <==> (valid(id) && valid(commentId) && id in db.users && commentId in old(db.comments)
      && old(db.comments)[commentId].author == id && Truthy(text))
    ensures r.Success? ==> (r == Success(200, old(db.comments)[commentId].(text := text.value))
      && db.comments == old(db.comments)[commentId := r.value])
  {
    if !valid(id) || !valid(commentId) {
      return Failure(InvalidId);
    }
    if id !in db.users {
      return Failure(UserNotFound);
    }
    if commentId !in db.comments {
      return Failure(CommentNotFound);
    }
    var comment := db.comments[commentId];
    if comment.author != id {
      return Failure(HttpError(400, "You are not authorized to update this comment"));
    }
    if !Truthy(text) {
      return Failure(ValidationError("text"));
    }
    comment := comment.(text := text.value);
    db.comments := db.comments[commentId := comment];
    r := Success(200, comment);
  }

  /** `deleteComment` by the caller `id` of comment `commentId` under post `postId`. Nothing checks
      that the comment belongs to that post. */
  method DeleteComment(db: Db, valid: Id -> bool, id: Id, postId: Id, commentId: Id) returns (r: Response<string>)
    modifies db`comments, db`posts
    ensures !valid(id) || !valid(commentId) || !valid(postId) ==> r == Failure(InvalidId)
    ensures valid(id) && valid(commentId) && valid(postId) && id !in db.users ==> r == Failure(UserNotFound)
    ensures valid(id) && valid(commentId) && valid(postId) && id in db.users && postId !in old(db.posts) ==>
      r == Failure(PostNotFound)
    ensures (valid(id) && valid(commentId) && valid(postId) && id in db.users && postId in old(db.posts)
      && commentId !in old(db.comments)) ==> r == Failure(CommentNotFound)
    ensures (valid(id) && valid(commentId) && valid(postId) && id in db.users && postId in old(db.posts)
      && commentId in old(db.comments) && old(db.comments)[commentId].author != id) ==>
      r == Failure(HttpError(400, "You are not authorized to delete this comment"))
    ensures r.Failure? ==> db.comments == old(db.comments) && db.posts == old(db.posts)
    ensures r.Success? <==> (valid(id) && valid(commentId) && valid(postId) && id in db.users && postId in old(db.posts)
      && commentId in old(db.comments) && old(db.comments)[commentId].author == id)
    ensures r.Success? ==> (r == Success(200, "Comment deleted successfully")
      && db.comments == old(db.comments) - {commentId}
      && db.posts == Detach(old(db.posts), postId, commentId))
  {
    if !valid(id) || !valid(commentId) || !valid(postId) {
      return Failure(InvalidId);
    }
    if id !in db.users {
      return Failure(UserNotFound);
    }
    if postId !in db.posts {
      return Failure(PostNotFound);
    }
    if commentId !in db.comments {
      return Failure(CommentNotFound);
    }
    if db.comments[commentId].author != id {
      return Failure(HttpError(400, "You are not authorized to delete this comment"));
    }
    db.comments := db.comments - {commentId};
    var post := db.posts[postId];
    db.posts := db.posts[postId := post.(comments := Pull(post.comments, commentId))];
    r := Success(200, "Comment deleted successfully");
  }

  /** Creating a comment keeps every listed id resolvable. */
  lemma AttachKeepsResolved(posts: map<Id, Post>, comments: map<Id, Comment>, postId: Id, cid: Id, c: Comment)
    requires CommentsResolve(posts, comments) && postId in posts
    ensures CommentsResolve(Attach(posts, postId, cid), comments[cid := c])
  {
  }

  /** Deleting a comment through the one post that lists it keeps every listed id resolvable. */
  lemma DetachKeepsResolved(posts: map<Id, Post>, comments: map<Id, Comment>, postId: Id, cid: Id)
    requires CommentsResolve(posts, comments) && postId in posts
    requires forall p :: p in posts && p != postId ==> cid !in posts[p].comments
    ensures CommentsResolve(Detach(posts, postId, cid), comments - {cid})
  {
  }

  /** Deleting a comment through a post that does not list it leaves the post that does pointing at
      a comment that is gone. */
  lemma DetachThroughOtherPostDangles(p: Post, q: Post, c: Comment)
    requires p.comments == ["c"] && q.comments == []
    ensures var posts := map["p" := p, "q" := q];
            CommentsResolve(posts, map["c" := c])
            && !CommentsResolve(Detach(posts, "q", "c"), map["c" := c] - {"c"})
  {
    var posts := map["p" := p, "q" := q];
    assert "p"[0] != "q"[0];
    var after := Detach(posts, "q", "c");
    assert after["p"] == p;
    assert "c" in after["p"].comments;
    assert "c" !in map["c" := c] - {"c"};
  }

  /** Deleting a comment that was just created restores its post's list, when the id was new. */
  lemma AttachDetachRestores(posts: map<Id, Post>, postId: Id, cid: Id)
    requires postId in posts && cid !in posts[postId].comments
    ensures Detach(Attach(posts, postId, cid), postId, cid) == posts
  {
    PullAfterPush(posts[postId].comments, cid);
    PullAbsent(posts[postId].comments, cid);
    assert Detach(Attach(posts, postId, cid), postId, cid)[postId] == posts[postId];
  }

  /** Detaching keeps the other ids of the list in their order: removing a comment between two
      stretches of the list joins what is left of both. */
  lemma DetachKeepsOrder(before: seq<Id>, cid: Id, after: seq<Id>)
    ensures Pull(before + [cid] + after, cid) == Pull(before, cid) + Pull(after, cid)
  {
    PullAppend(before + [cid], after, cid);
    PullAppend(before, [cid], cid);
    assert Pull([cid], cid) == [];
  }
}
