/** The user handlers: the two profile projections and following or unfollowing another user, which
    updates the `followings` list of the caller and the `followers` list of the other user together. */
module UserController {
  import opened Common
  import opened Models
  import opened Seqs

  const InvalidUserId := HttpError(400, "Invalid ID")
  const UserNotFound := HttpError(404, "User not found")

  /** What `getCurrentUser` sends about the caller. */
  datatype CurrentUserView = CurrentUserView(id: Id, username: string, email: string)

  /** What `getUserById` sends about any user. */
  datatype ProfileView = ProfileView(id: Id, username: string, followers: seq<Id>, followings: seq<Id>)

  /** `getCurrentUser` for the caller `id` taken from the token. The id is not checked first, so a
      malformed one makes the lookup throw. */
  function GetCurrentUser(valid: Id -> bool, users: map<Id, User>, id: Id): (r: Response<CurrentUserView>)
    ensures !valid(id) ==> r == Failure(CastError(id))
    ensures valid(id) && id !in users ==> r == Failure(UserNotFound)
    ensures r.Success? <==> valid(id) && id in users
    ensures r.Success? ==> (r.status == 200 && r.value.id == id
      && r.value.username == users[id].username && r.value.email == users[id].email)
  {
    if !valid(id) then Failure(CastError(id))
    else if id !in users then Failure(UserNotFound)
    else Success(200, CurrentUserView(id, users[id].username, users[id].email))
  }

  /** `getUserById`. */
  function GetUserById(valid: Id -> bool, users: map<Id, User>, id: Id): (r: Response<ProfileView>)
    ensures !valid(id) ==> r == Failure(InvalidUserId)
    ensures valid(id) && id !in users ==> r == Failure(UserNotFound)
    ensures r.Success? <==> valid(id) && id in users
    ensures r.Success? ==> (r.status == 200 && r.value.id == id && r.value.username == users[id].username
      && r.value.followers == users[id].followers && r.value.followings == users[id].followings)
  {
    if !valid(id) then Failure(InvalidUserId)
    else if id !in users then Failure(UserNotFound)
    else Success(200, ProfileView(id, users[id].username, users[id].followers, users[id].followings))
  }

  /** The caller's own view never depends on the password or on the follow lists. */
  lemma CurrentUserHidesSecrets(valid: Id -> bool, users: map<Id, User>, id: Id, password: string,
                                followers: seq<Id>, followings: seq<Id>)
    requires id in users
    ensures var changed := users[id := users[id].(password := password, followers := followers, followings := followings)];
            GetCurrentUser(valid, changed, id) == GetCurrentUser(valid, users, id)
  {
  }

  /** A profile never depends on the email or the password. */
  lemma ProfileHidesSecrets(valid: Id -> bool, users: map<Id, User>, id: Id, email: string, password: string)
    requires id in users
    ensures GetUserById(valid, users[id := users[id].(email := email, password := password)], id)
         == GetUserById(valid, users, id)
  {
  }

  /** Every `a` that `b` follows lists `b` among its followers, and the other way round. */
  ghost predicate Symmetric(users: map<Id, User>) {
    forall a, b :: a in users && b in users ==> (b in users[a].followings <==> a in users[b].followers)
  }

  /** The store after `a` starts following `b`: `b` pushed onto `a`'s followings, then `a` onto
      `b`'s followers. */
  function Followed(users: map<Id, User>, a: Id, b: Id): map<Id, User>
    requires a in users && b in users
  {
    var u := users[a := users[a].(followings := users[a].followings + [b])];
    u[b := u[b].(followers := u[b].followers + [a])]
  }

  /** The store after `a` stops following `b`: every `b` pulled from `a`'s followings, then every
      `a` from `b`'s followers. */
  function Unfollowed(users: map<Id, User>, a: Id, b: Id): map<Id, User>
    requires a in users && b in users
  {
    var u := users[a := users[a].(followings := Pull(users[a].followings, b))];
    u[b := u[b].(followers := Pull(u[b].followers, a))]
  }

  /** `followUser` by the caller `id` of the user `userId`. Only the caller's id is checked, so a
      malformed `userId` makes its lookup throw. */
  method FollowUser(db: Db, valid: Id -> bool, id: Id, userId: Id) returns (r: Response<string>)
    modifies db`users
    ensures !valid(id) ==> r == Failure(InvalidUserId)
    ensures valid(id) && id == userId ==> r == Failure(HttpError(400, "You cannot follow yourself"))
    ensures valid(id) && id != userId && !valid(userId) ==> r == Failure(CastError(userId))
    ensures valid(id) && id != userId && valid(userId) && (id !in old(db.users) || userId !in old(db.users)) ==>
      r == Failure(UserNotFound)
    ensures valid(id) && id != userId && valid(userId) && id in old(db.users) && userId in old(db.users) ==>
      if userId in old(db.users)[id].followings
      then r == Failure(HttpError(403, "User already followed"))
      else r == Success(200, "User followed successfully")
    ensures r.Success? ==> (id in old(db.users) && userId in old(db.users)
      && db.users == Followed(old(db.users), id, userId))
    ensures r.Failure? ==> db.users == old(db.users)
  {
    if !valid(id) {
      return Failure(InvalidUserId);
    }
    if id == userId {
      return Failure(HttpError(400, "You cannot follow yourself"));
    }
    if !valid(userId) {
      return Failure(CastError(userId));
    }
    if id !in db.users || userId !in db.users {
      return Failure(UserNotFound);
    }
    if userId !in db.users[id].followings {
      var current := db.users[id];
      db.users := db.users[id := current.(followings := current.followings + [userId])];
      var target := db.users[userId];
      db.users := db.users[userId := target.(followers := target.followers + [id])];
      r := Success(200, "User followed successfully");
    } else {
      r := Failure(HttpError(403, "User already followed"));
    }
  }

  /** `unFollowUser` by the caller `id` of the user `userId`. */
  method UnfollowUser(db: Db, valid: Id -> bool, id: Id, userId: Id) returns (r: Response<string>)
    modifies db`users
    ensures !valid(id) ==> r == Failure(InvalidUserId)
    ensures valid(id) && id == userId ==> r == Failure(HttpError(400, "You cannot unfollow yourself"))
    ensures valid(id) && id != userId && !valid(userId) ==> r == Failure(CastError(userId))
    ensures valid(id) && id != userId && valid(userId) && (id !in old(db.users) || userId !in old(db.users)) ==>
      r == Failure(UserNotFound)
    ensures valid(id) && id != userId && valid(userId) && id in old(db.users) && userId in old(db.users) ==>
      if userId in old(db.users)[id].followings
      then r == Success(200, "User unfollowed successfully")
      else r == Failure(HttpError(403, "You don't Follow this user"))
    ensures r.Success? ==> (id in old(db.users) && userId in old(db.users)
      && db.users == Unfollowed(old(db.users), id, userId))
    ensures r.Failure? ==> db.users == old(db.users)
  {
    if !valid(id) {
      return Failure(InvalidUserId);
    }
    if id == userId {
      return Failure(HttpError(400, "You cannot unfollow yourself"));
    }
    if !valid(userId) {
      return Failure(CastError(userId));
    }
    if id !in db.users || userId !in db.users {
      return Failure(UserNotFound);
    }
    if userId in db.users[id].followings {
      var current := db.users[id];
      db.users := db.users[id := current.(followings := Pull(current.followings, userId))];
      var target := db.users[userId];
      db.users := db.users[userId := target.(followers := Pull(target.followers, id))];
      r := Success(200, "User unfollowed successfully");
    } else {
      r := Failure(HttpError(403, "You don't Follow this user"));
    }
  }

  /** Following touches only the two users: the follower gains exactly the followed user in its
      followings and the followed user gains exactly the follower in its followers. */
  lemma FollowedEffect(users: map<Id, User>, a: Id, b: Id)
    requires a in users && b in users && a != b
    ensures var r := Followed(users, a, b);
            r.Keys == users.Keys
            && (forall k :: k in users && k != a && k != b ==> r[k] == users[k])
            && r[a] == users[a].(followings := users[a].followings + [b])
            && r[b] == users[b].(followers := users[b].followers + [a])
  {
  }

  /** Unfollowing touches only the two users, and removes the pair from both lists. */
  lemma UnfollowedEffect(users: map<Id, User>, a: Id, b: Id)
    requires a in users && b in users && a != b
    ensures var r := Unfollowed(users, a, b);
            r.Keys == users.Keys
            && (forall k :: k in users && k != a && k != b ==> r[k] == users[k])
            && b !in r[a].followings && a !in r[b].followers
            && (forall x :: x != b ==> (x in r[a].followings <==> x in users[a].followings))
            && (forall x :: x != a ==> (x in r[b].followers <==> x in users[b].followers))
  {
  }

  /** Following someone not yet followed keeps the lists symmetric. */
  lemma FollowKeepsSymmetric(users: map<Id, User>, a: Id, b: Id)
    requires Symmetric(users) && a in users && b in users && a != b
    requires b !in users[a].followings
    ensures Symmetric(Followed(users, a, b))
  {
  }

  /** Unfollowing keeps the lists symmetric. */
  lemma UnfollowKeepsSymmetric(users: map<Id, User>, a: Id, b: Id)
    requires Symmetric(users) && a in users && b in users && a != b
    ensures Symmetric(Unfollowed(users, a, b))
  {
  }

  /** Following and then unfollowing a user restores both users exactly, when neither list held
      the other before. */
  lemma FollowUnfollowRestores(users: map<Id, User>, a: Id, b: Id)
    requires a in users && b in users && a != b
    requires b !in users[a].followings && a !in users[b].followers
    ensures Unfollowed(Followed(users, a, b), a, b) == users
  {
    var f := Followed(users, a, b);
    PullAfterPush(users[a].followings, b);
    PullAbsent(users[a].followings, b);
    PullAfterPush(users[b].followers, a);
    PullAbsent(users[b].followers, a);
    var u := Unfollowed(f, a, b);
    assert u[a] == users[a];
    assert u[b] == users[b];
  }
}
