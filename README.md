# Blog backend: chat presence, conversations, posts, comments and follows

This project models the core of a blog backend with a real-time chat, and proves properties of the model.

The chat side has two parts:

- **The presence registry.** A process-wide map from user id to the conversation the user joined and the socket it came from. The socket handlers `user connected`, `join conversation`, `message seen`, `start typing`/`stop typing`, `send message`, `left conversation` and `disconnect` update it. `send message` counts how many entries name the message's conversation before it stores the message; a message is stored as already seen when more than one user is in the room.
- **The chat REST handlers.** They open a conversation for an ordered (creator, participant) pair or return the existing one. They list the caller's conversations with the latest message of each, newest first. They return a conversation's messages to its two participants only, and the caller's unseen messages.

The blog side has four parts:

- **Follows.** Following and unfollowing update the caller's `followings` and the other user's `followers` together.
- **Posts.** These are the like toggle, creating a post, the partial update and delete by the author, and the queries. The queries only ever show public, active posts.
- **Comments.** A comment is created only on a post that allows comments, and its id is pushed onto the post's `comments` list. Its author may edit or delete it. A delete filters its id out of the named post's list.
- **The upload filter.** It admits only `.png`, `.jpg` and `.jpeg` file names.

Modelling choices:

- **Stores.** The document store is a `Db` object with `users`, `posts` and `comments` maps. The handlers that change it are methods with `modifies` clauses. Conversations and messages are sequences in store order.
- **Id validity.** `mongoId.isValid` is an abstract parameter `valid: Id -> bool` of every handler.
- **Errors.**
  - `HttpError(status, message)` is an error passed to the error handler or a direct status reply.
  - `CastError(id)` is the store's failure on a malformed id that was never checked.
  - `ValidationError(path)` is a schema check failing on save.
  - `ScriptError(message)` is a JavaScript exception.

  The handlers are total: every failure path of the code is a `Failure` value rather than a precondition.
- **Chat server.** The presence registry is the `ChatSocket.ChatServer` class. Its fields are `users`, `messages` and an event `log` recording what is emitted and to which audience.

Behaviour of the code that is easy to miss, which the model keeps:

- **Duplicate session.** A second `user connected` for a present user sends the error to, and disconnects, the *new* socket, not the existing one. The entry is then overwritten with the new socket anyway (`src/chat/chat.socket.js:15-20`).
- **A failed save.** The failure is sent to the joined room *except* the sending socket (`src/chat/chat.socket.js:69-71`).
- **Leaving a conversation.** `left conversation` deletes the whole entry rather than only clearing its conversation (`src/chat/chat.socket.js:83-85`).
- **A missing conversation in `getMessages`.** The code dereferences the missing conversation (`src/chat/chat.controller.js:116-117`) and fails with an exception, which the model returns as `ScriptError`.
- **`getUnseenMessages` errors.** Both error paths call a `next` that the handler never declares (`src/chat/chat.controller.js:140-148`). They also end in an exception rather than a 400 or 404.
- **`allowComments` on create.** The route takes multipart forms, and there every field arrives as a string. The request schema's boolean admits `true` and `false` in any letter case (`src/post/post.validation.js:8`). The raw value then goes into the new document (`src/post/post.controller.js:32-39`), whose boolean cast, on the values the schema admits, takes exactly the lower-case `true` and `false`. So `"false"` turns comments off, and `"True"` passes the schema but fails the save (`PostController.CastAgreesWithSchema`, `MixedCaseNotCast`). An update takes only JSON booleans (`src/post/post.controller.js:106-108`), so the same `"false"` changes nothing there (`TextFalseCreateOnly`).
- **Ordered lookup.** The conversation lookup is keyed on the ordered pair (`src/chat/chat.controller.js:24-26`).
- **Deleting a comment.** `deleteComment` never checks that the comment belongs to the post it names. Deleting through another post removes the comment but leaves its id on the post that lists it (`CommentController.DetachThroughOtherPostDangles`).

## Model

| member | source | states |
|---|---|---|
| ChatSocket.ChatServer.constructor | src/chat/chat.socket.js:11 | the registry starts empty, over the given message store, with nothing emitted |
| ChatSocket.ChatServer.UserConnected | src/chat/chat.socket.js:14-21 | the user's entry becomes exactly (no conversation, this socket) whether or not one existed, every other entry is unchanged; a duplicate first gets the error and disconnect of the connecting socket; then the registry is broadcast |
| ChatSocket.ChatServer.JoinConversation | src/chat/chat.socket.js:23-29 | the entry becomes exactly (this conversation, no socket), nothing else changes, then the registry and a re-fetch signal to the room are emitted |
| ChatSocket.MarkSeen | src/chat/chat.socket.js:32-36 | exactly the messages of the conversation addressed to the user are flagged seen, every other message is untouched, the length is kept |
| ChatSocket.MarkSeenIdempotent | src/chat/chat.socket.js:31-37 | marking seen twice equals marking once |
| ChatSocket.ChatServer.MessageSeen | src/chat/chat.socket.js:31-40 | the message store becomes its marked-seen image, the registry is unchanged, and the room is told to re-fetch |
| ChatSocket.ChatServer.StartTyping | src/chat/chat.socket.js:42-44 | only `typing true` to the room except the sender is emitted |
| ChatSocket.ChatServer.StopTyping | src/chat/chat.socket.js:46-48 | only `typing false` to the room except the sender is emitted |
| ChatSocket.ChatServer.CountRoomMembers | src/chat/chat.socket.js:53-59 | the loop's count equals the number of entries naming the conversation and never exceeds the number of entries |
| ChatSocket.ChatServer.SendMessage | src/chat/chat.socket.js:50-73 | sender, receiver, conversation and body are copied, a missing body is empty, `seen` holds iff more than one entry names the conversation; a failed save stores nothing and emits the error instead of `message sent` |
| ChatSocket.ChatServer.LeftConversation | src/chat/chat.socket.js:82-89 | the user's entry is removed, every other entry is unchanged, and typing-false, the disconnect and the registry are emitted in that order |
| ChatSocket.ChatServer.Disconnect | src/chat/chat.socket.js:91-94 | the user's entry is removed, every other entry is unchanged, and the registry is broadcast |
| ChatSocket.TwoJoinedMeansSeen | src/chat/chat.socket.js:53-65 | once two different users joined a conversation, more than one entry names it, so a message sent there is stored seen |
| ChatSocket.AloneMeansUnseen | src/chat/chat.socket.js:53-65 | a user alone in a room leaves the count at one, so its messages are stored unseen |
| ChatController.FindConversation | src/chat/chat.controller.js:24-26 | the first conversation whose creator and participant match the ordered pair, or none when no conversation matches |
| ChatController.CreateConversation | src/chat/chat.controller.js:12-48 | an invalid id gives 400 and a missing user 404, with the store unchanged; otherwise 201 with a conversation of that ordered pair: the existing one with the store unchanged, or a new one appended under the fresh id; distinct conversation ids stay distinct |
| ChatController.FindAfterAppend | src/chat/chat.controller.js:24-32 | a conversation stored for a pair that had none is what the pair finds afterwards |
| ChatController.FindIgnoresOtherPair | src/chat/chat.controller.js:24-26 | storing a conversation of another ordered pair does not change what a pair finds |
| ChatController.CreateTwiceSameConversation | src/chat/chat.controller.js:24-47 | calling twice with the same ordered pair returns the same response, the second call stores nothing, and the store grows by at most one |
| ChatController.ReverseCreatesSecond | src/chat/chat.controller.js:24-33 | (B, A) after (A, B) stores a second conversation, with B as creator |
| ChatController.MessagesInvolving | src/chat/chat.controller.js:61-63 | exactly the stored messages the user sent or received |
| ChatController.ConversationIds | src/chat/chat.controller.js:67-71 | the loop collects exactly the set of conversations of the messages |
| ChatController.ConversationsWithIds | src/chat/chat.controller.js:74-76 | exactly the stored conversations whose id is in the set |
| ChatController.LastMessageOf | src/chat/chat.controller.js:83-90 | the head of the conversation's messages sorted newest first is one of them with the largest timestamp |
| ChatController.ViewOf | src/chat/chat.controller.js:83-91 | the view pairs the conversation with a latest message of the caller in it |
| ChatController.BuildViews | src/chat/chat.controller.js:81-92 | the loop yields one view per conversation, in order, each with the conversation's latest message among the caller's |
| ChatController.GetConversation | src/chat/chat.controller.js:51-101 | 400 or 404 on a bad or missing caller; otherwise the views are sorted newest last message first, each names a stored conversation with its latest message among the caller's, a stored conversation is listed iff the caller has a message in it, and each at most once when the store keeps ids unique |
| ChatController.ViewsComplete | src/chat/chat.controller.js:67-78 | every stored conversation the caller has a message in gets a view |
| ChatController.ViewsSound | src/chat/chat.controller.js:81-92 | every view names a stored conversation the caller has a message in, with its latest such message |
| ChatController.ViewsDistinct | src/chat/chat.controller.js:74-78 | views built from conversations with distinct ids have distinct ids |
| ChatController.LastOfRecentIsLast | src/chat/chat.controller.js:61-87 | a latest message among the caller's messages of a conversation is a latest one among all its messages the caller sent or received |
| ChatController.MessagesOf | src/chat/chat.controller.js:128 | exactly the stored messages of the conversation |
| ChatController.FindById | src/chat/chat.controller.js:116 | the position of the conversation with the id, or none when the id matches no conversation |
| ChatController.GetMessages | src/chat/chat.controller.js:104-137 | 400, 404, an exception on a missing conversation; for an existing conversation the creator and the participant succeed and anyone else gets 404; a success holds all and only the conversation's messages, as a permutation, newest first, with the conversation |
| ChatController.UnseenFor | src/chat/chat.controller.js:150-152 | exactly the messages addressed to the user and not seen |
| ChatController.GetUnseenMessages | src/chat/chat.controller.js:140-157 | an invalid or missing caller ends in the undefined-`next` exception; otherwise exactly the caller's unseen messages |
| ChatController.UnseenAfterMessageSeen | src/chat/chat.socket.js:31-37 | after `message seen`, no unseen message of the user is left in that conversation, and the others stay unseen |
| UserController.GetCurrentUser | src/user/user.controller.js:11-29 | a malformed id throws, a missing user gives 404, otherwise 200 with the caller's id, username and email |
| UserController.CurrentUserHidesSecrets | src/user/user.controller.js:19-23 | the caller's view never depends on the password or the follow lists |
| UserController.GetUserById | src/user/user.controller.js:83-106 | 400 on a malformed id, 404 on a missing user, otherwise 200 with id, username, followers and followings |
| UserController.ProfileHidesSecrets | src/user/user.controller.js:94-99 | a profile never depends on the email or the password |
| UserController.FollowUser | src/user/user.controller.js:109-146 | 400 on a bad caller id or self-follow, an exception on a malformed target id, 404 on a missing user, 403 when already followed; otherwise the target is pushed onto the caller's followings and the caller onto the target's followers; every failure changes nothing |
| UserController.UnfollowUser | src/user/user.controller.js:149-186 | the same checks; 403 when not followed; otherwise every copy of each is pulled from the other's list; every failure changes nothing |
| UserController.FollowedEffect | src/user/user.controller.js:127-138 | following touches only the two users, each list gaining exactly the other |
| UserController.UnfollowedEffect | src/user/user.controller.js:167-178 | unfollowing touches only the two users and removes each from the other's list, keeping every other id |
| UserController.FollowKeepsSymmetric | src/user/user.controller.js:127-138 | B in A's followings iff A in B's followers holds after a follow |
| UserController.UnfollowKeepsSymmetric | src/user/user.controller.js:167-178 | the same symmetry holds after an unfollow |
| UserController.FollowUnfollowRestores | src/user/user.controller.js:127-178 | follow then unfollow restores both users exactly, when neither list held the other before |
| Seqs.Pull | src/post/post.controller.js:224-228 | every occurrence of the value is removed, every other value stays |
| Seqs.PullAppend | src/comment/comment.controller.js:115 | removing a value distributes over concatenation, so what stays keeps its order |
| Seqs.SortDesc | src/chat/chat.controller.js:94-96 | a permutation sorted by non-increasing key |
| PostController.ToggleFlips | src/post/post.controller.js:213-233 | a toggle flips the caller's membership in the likes and keeps everybody else's |
| PostController.ToggleTwice | src/post/post.controller.js:213-233 | two toggles restore the membership, and restore the list itself when it was not liked before |
| PostController.LikeDislikeToggle | src/post/post.controller.js:195-234 | 400 on either bad id, 404 on a missing user or post, which leave the likes unchanged; otherwise the likes are toggled with the matching message |
| PostController.NewPost | src/post/post.controller.js:32-57 | the author is the caller, the picture is the upload or an empty url and filename, status public by default, comments allowed unless the flag reads false, active, with no likes or comments |
| PostController.CreatePost | src/post/post.controller.js:14-66 | 400, 404, 400 with the schema's message on a refused body (including unknown keys), a validation error when the raw `allowComments` does not cast; otherwise 201 with the new post stored under the fresh id and nothing else changed |
| PostController.CastAgreesWithSchema | src/post/post.controller.js:26-39 | on the values the schema admits, the cast takes exactly a boolean or the lower-case `true`/`false`, and then stores the boolean the schema read |
| PostController.AdmittedTextCasts | src/post/post.controller.js:26-39 | a text the schema admits is one of the cast's texts exactly when it is `true` or `false` in lower case, and reads as true exactly when it is `true` |
| PostController.CastWiderThanSchema | src/post/post.validation.js:8 | `yes` and the number 1 cast to true but the schema refuses them |
| PostController.MixedCaseNotCast | src/post/post.validation.js:8 | `True` passes the schema's boolean but not the document's cast |
| PostController.TextFalseCreateOnly | src/post/post.controller.js:32-107 | a text `false` turns comments off on create, but an update leaves the flag as it was |
| PostController.Lower | src/post/post.validation.js:8 | the lower-cased text has the same length, with each ASCII capital lowered and every other character kept |
| PostController.MergeKeepsTheRest | src/post/post.controller.js:94-123 | the update never changes author, activity, likes, categories or comments |
| PostController.EmptyUpdateIsIdentity | src/post/post.controller.js:94-108 | absent or empty title, content and status, no boolean and no picture leave the post as it was |
| PostController.MergeIdempotent | src/post/post.controller.js:94-123 | applying the same update twice equals applying it once |
| PostController.UpdatePost | src/post/post.controller.js:69-132 | 400, 404, an exception on a malformed post id, 404, 403 for a non-author, a validation error on a status outside the enum (all leaving the post unchanged); otherwise the merged post is stored and returned |
| PostController.DeletePost | src/post/post.controller.js:135-167 | the same checks with 403 for a non-author, leaving the post present; otherwise the post is removed |
| PostController.GetPostById | src/post/post.controller.js:170-192 | 400 on a malformed id; a post is returned iff it is public and active, else 404 |
| PostController.GetAllPublicPosts | src/post/post.controller.js:290-301 | exactly the public, active posts |
| PostController.VisiblePostsBy | src/post/post.controller.js:277-281 | exactly the public, active posts of the author |
| PostController.GetAllPostsByUsername | src/post/post.controller.js:266-288 | 400 on an empty name, 404 when nobody has it; otherwise exactly the public, active posts of authors with that name |
| PostController.PostsByUsernameAreTheUsers | src/post/post.controller.js:272-281 | with unique usernames these are exactly that user's public, active posts |
| PostController.GetTimelinePosts | src/post/post.controller.js:237-264 | 400, 404; otherwise one collection per followed user, in followings order, each exactly that user's public, active posts, each mapped to the stored post itself |
| PostController.ByIdMatchesPublicList | src/post/post.controller.js:177-185 | a post is found by id iff it is in the public list |
| PostController.ListsArePublic | src/post/post.controller.js:249-257 | every post on a timeline or a user's page is in the public list |
| CommentController.CreateComment | src/comment/comment.controller.js:12-48 | 400 on either bad id, 404 on a missing user or post, 400 when comments are off, a validation error on an absent or empty text (all changing nothing); otherwise the comment with the caller as author is stored and its id appended to the post's list |
| CommentController.UpdateComment | src/comment/comment.controller.js:51-82 | 400, 404, 404 on a missing comment, 400 for a non-author, a validation error on an absent or empty text (all leaving the text unchanged); otherwise only the text is replaced |
| CommentController.DeleteComment | src/comment/comment.controller.js:85-122 | 400 on any bad id, 404 on a missing user, post or comment, 400 for a non-author (all removing nothing); otherwise the comment is removed and every copy of its id filtered from the named post's list |
| CommentController.AttachKeepsResolved | src/comment/comment.controller.js:35-41 | creating keeps every listed comment id resolvable |
| CommentController.DetachKeepsResolved | src/comment/comment.controller.js:112-116 | deleting through the one post that lists the comment keeps every listed id resolvable |
| CommentController.DetachThroughOtherPostDangles | src/comment/comment.controller.js:98-116 | deleting through a post that does not list the comment leaves a dangling id on the post that does |
| CommentController.AttachDetachRestores | src/comment/comment.controller.js:112-116 | deleting a just-created comment restores its post's list |
| CommentController.DetachKeepsOrder | src/comment/comment.controller.js:115 | the ids left on the list keep their order |
| Upload.LastIndexOf | src/config/multer.js:12 | the position of the last occurrence of the character, or none exactly when it does not occur |
| Upload.FileFilter | src/config/multer.js:11-17 | a name is accepted iff its extension is `.png`, `.jpg` or `.jpeg`, else rejected with 400 "Only images are allowed" |
| Upload.ExtName | src/config/multer.js:12 | the extension is empty or a `.` followed by text with no further dot and no slash |
| Upload.BaseName | src/config/multer.js:12 | the last component is the slash-free tail of the trimmed path that follows its last slash, or all of it |
| Upload.BaseNameUnderDirectory | src/config/multer.js:12 | `dir/name` has `name` as its last component |
| Upload.DirectoryIgnored | src/config/multer.js:11-17 | the filter gives the same verdict for `dir/name` as for `name` |
| Upload.TrimTrailingSlashes | src/config/multer.js:12 | the trimmed text is a prefix of the path, does not end in a slash, and only slashes were cut |
| Upload.LastExtensionCounts | src/config/multer.js:12 | the extension of a plain stem followed by a dotted word is that dotted word |
| Upload.DotBeforeWord | src/config/multer.js:12 | the last dot of `stem.word` is the one before the word |
| Upload.ImagesAccepted | src/config/multer.js:13-16 | `.png`, `.jpg` and `.jpeg` names are accepted for every plain stem |
| Upload.OtherExtensionsRejected | src/config/multer.js:13-15 | any other last extension is rejected with the 400 |
| Upload.NoExtensionRejected | src/config/multer.js:12-15 | a name without a dot has the empty extension and is rejected |
| Upload.DoubleExtensionAccepted | src/config/multer.js:12-16 | `a.exe.png` is accepted |
| Upload.ImageThenOtherRejected | src/config/multer.js:12-15 | `a.png.exe` is rejected |
| Upload.UpperCaseRejected | src/config/multer.js:13 | `.PNG` and `.JPG` are rejected |
| Upload.DotFileRejected | src/config/multer.js:12-15 | the dot-file `.png` has no extension and is rejected |

## Left out

- The socket transport is left out: rooms, `socket.join`/`leave`, CORS and delivery. Emitted events are recorded in `ChatServer.log` together with their intended audience.
- The `message` event to `users[receiver]` after a send in a room of one (`src/chat/chat.socket.js:74-76`) is left out. It names a registry entry as a room, so it reaches nobody the model can name.
- Handler registration is left out. The code registers the room handlers again on every `join conversation` and never removes them. After two joins, one `send message` runs twice and stores the message twice, and old handlers keep their old conversation. Each model method is one run of one handler.
- The transport's own `disconnect` event after a forced disconnect is not chained. After `LeftConversation` (`src/chat/chat.socket.js:87`) a caller runs `Disconnect` next. After the duplicate-session disconnect in `UserConnected` (`src/chat/chat.socket.js:17`) nothing follows: the socket's `disconnect` handler is registered only later (line 91), so the entry written at line 20 stays, naming the socket that was just disconnected.
- Concurrency and asynchrony are left out: the interleaving of handlers, promise order and `Promise.all`. Each handler is atomic.
- Store details are left out: `populate`, timestamps (given as `createdAt` or assigned ids), the slug plugin, and ObjectId-versus-string comparisons. Ids are strings compared by value.
- ChatController.GetConversation: the store's sort of the caller's messages is modelled as a stable sort on `createdAt`. The store's order among equal timestamps is not modelled.
- ChatController.GetMessages: the same holds for the message list. The list is a permutation of the conversation's messages, sorted newest first.
- PostController.GetAllPublicPosts: returns the posts keyed by id, so the store's return order is not modelled. The same holds for `GetAllPostsByUsername` and each timeline collection.
- PostController.GetAllPostsByUsername: takes every user with the name. The code takes the one the store finds first; the two agree under the unique index (`PostsByUsernameAreTheUsers`).
- The image store is a parameter:
  - PostController.CreatePost: `upload` is the uploaded picture.
  - PostController.UpdatePost: the same. The destroy of the old picture in `updatePost` and `deletePost` is left out.
- PostController.CreatePost: the request schema is modelled by which bodies it accepts. Its message text is a parameter `schemaMessage`. Non-string JSON values for title, content and status are not modelled. A failed cast of `allowComments` is modelled as a validation error on that path.
- Store-assigned ids are fresh: `CreatePost`, `CreateComment` and `CreateConversation` require that `newId` is not in use.
- PostController.UpdatePost: a failed save names only the `status` path. Non-string JSON values for title, content or status are left out, and so are non-boolean values for `allowComments`, which the code ignores.
- CommentController.CreateComment and CommentController.UpdateComment: `text` is a string or absent. A non-string JSON value, which the store would convert to a string (`5` to `"5"`), is not modelled.
- Authentication is left out: the token, the passport strategy, bcrypt and the login and register handlers.
- `updateUser` and `deleteUser` are left out. They are not among the modelled handlers.
- The category handlers, routes and configuration are left out.
- Upload.FileFilter: follows POSIX `path.extname`. The Windows path rules are not modelled.
