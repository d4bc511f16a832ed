/** server/controllers/commentController.js: creating a comment (behind
    authMiddleware, as server/routes/commentRoutes.js wires it) and listing
    the comments of a post. */
module CommentController {
  import opened Base
  import opened Http
  import opened Collaborators
  import opened Query
  import opened PostModel
  import opened CommentModel
  import opened UserModel
  import opened Store
  import opened AuthMiddleware

  const INVALID_POST_ID: string := "Invalid Post ID"
  const POST_NOT_FOUND: string := "Post not found"
  const SERVER_ERROR: string := "Server error"

  /** The fields of the request body the controller reads. */
  datatype CommentInput = CommentInput(content: Option<string>, postId: Option<string>)

  /** What createComment answers and the comments collection it leaves. */
  datatype CommentOutcome = CommentOutcome(reply: Reply<Comment>, comments: seq<Comment>)

  /** ObjectId.isValid(postId); undefined is not valid. */
  predicate ValidPostId(env: Env, postId: Option<string>) {
    postId.Some? && env.isObjectId(postId.value)
  }

  /** createComment after authMiddleware. Post.findById and the new
      comment's `post` path both cast postId, so any spelling of a stored
      post's ObjectId finds it, and the comment refers to the ObjectId.
      Inside the try every failure (a null req.user, a schema violation, a
      clash on _id) is answered 500 'Server error'. */
  function CreateCommentHandlerOutcome(env: Env, posts: seq<Post>, comments: seq<Comment>, user: Option<PublicUser>,
                                       input: CommentInput, freshId: Id, now: nat): (o: CommentOutcome)
    ensures o.comments == comments || o.reply.status == 201
    ensures !ValidPostId(env, input.postId) ==> o.reply == Reply(400, Message(INVALID_POST_ID))
    ensures ValidPostId(env, input.postId) && FindPost(posts, env.castId(input.postId.value)).None? ==>
      o.reply == Reply(404, Message(POST_NOT_FOUND))
    ensures o.reply.status !in {201, 400, 404} ==> o.reply == Reply(500, Message(SERVER_ERROR))
    ensures o.reply.status != 201 ==> o.reply.body.Message?
  {
    if !ValidPostId(env, input.postId) then CommentOutcome(Reply(400, Message(INVALID_POST_ID)), comments)
    else if FindPost(posts, env.castId(input.postId.value)).None? then CommentOutcome(Reply(404, Message(POST_NOT_FOUND)), comments)
    else if user.None? then CommentOutcome(Reply(500, Message(SERVER_ERROR)), comments)
    else
      var c := NewComment(freshId, input.content, user.value.id, env.castId(input.postId.value), now);
      if !CommentSchemaValid(c) then CommentOutcome(Reply(500, Message(SERVER_ERROR)), comments)
      else if FirstIndex(comments, (d: Comment) => d.id == freshId).Some? then
        CommentOutcome(Reply(500, Message(SERVER_ERROR)), comments)
      else CommentOutcome(Reply(201, Data(c)), comments + [c])
  }

  /** POST /api/comments: authMiddleware, then createComment. */
  function CreateCommentOutcome(env: Env, posts: seq<Post>, comments: seq<Comment>, auth: AuthResult,
                                input: CommentInput, freshId: Id, now: nat): (o: CommentOutcome)
    ensures o.comments == comments || o.reply.status == 201
    ensures auth.Denied? ==> o.reply == Reply(401, Message(auth.message))
    ensures auth.Accepted? ==> o == CreateCommentHandlerOutcome(env, posts, comments, auth.user, input, freshId, now)
  {
    match auth
    case Denied(message) => CommentOutcome(Reply(401, Message(message)), comments)
    case Accepted(user) => CreateCommentHandlerOutcome(env, posts, comments, user, input, freshId, now)
  }

  /** A created comment is the one appended: the body's content trimmed, the
      authenticated user as author, the requested post, created now. */
  lemma CreateCommentAddsOne(env: Env, posts: seq<Post>, comments: seq<Comment>, auth: AuthResult,
                             input: CommentInput, freshId: Id, now: nat)
    requires CreateCommentOutcome(env, posts, comments, auth, input, freshId, now).reply.status == 201
    ensures var o := CreateCommentOutcome(env, posts, comments, auth, input, freshId, now);
      && auth.Accepted? && auth.user.Some? && input.postId.Some?
      && o.reply.body.Data?
      && o.comments == comments + [o.reply.body.value]
      && o.reply.body.value.content == Trim(input.content.GetOr(""))
      && o.reply.body.value.user == auth.user.value.id
      && o.reply.body.value.post == env.castId(input.postId.value)
      && o.reply.body.value.createdAt == now
      && (exists k :: 0 <= k < |posts| && posts[k].id == env.castId(input.postId.value))
  {
  }

  /** An authenticated comment on a stored post, whose trimmed content the
      schema accepts and whose id is new, is answered 201 and exactly that
      comment is appended. */
  lemma {:induction false} ValidCommentSucceeds(env: Env, posts: seq<Post>, comments: seq<Comment>, user: PublicUser,
                                                input: CommentInput, freshId: Id, now: nat)
    requires Sound(env)
    requires ValidPostId(env, input.postId)
    requires exists k :: 0 <= k < |posts| && posts[k].id == env.castId(input.postId.value)
    requires Trim(input.content.GetOr("")) != "" && Utf16Length(Trim(input.content.GetOr(""))) <= CONTENT_MAX_LENGTH
    requires user.id != ""
    requires forall k :: 0 <= k < |comments| ==> comments[k].id != freshId
    ensures var c := NewComment(freshId, input.content, user.id, env.castId(input.postId.value), now);
      CreateCommentOutcome(env, posts, comments, Accepted(Some(user)), input, freshId, now) ==
        CommentOutcome(Reply(201, Data(c)), comments + [c])
  {
    var k :| 0 <= k < |posts| && posts[k].id == env.castId(input.postId.value);
    assert FindPost(posts, env.castId(input.postId.value)).Some?;
    assert env.castId(input.postId.value) != "";
  }

  /** Creating keeps the collection's invariant. */
  lemma CreateCommentPreservesValid(env: Env, posts: seq<Post>, comments: seq<Comment>, auth: AuthResult,
                                    input: CommentInput, freshId: Id, now: nat)
    requires CommentsValid(comments)
    ensures CommentsValid(CreateCommentOutcome(env, posts, comments, auth, input, freshId, now).comments)
  {
    var o := CreateCommentOutcome(env, posts, comments, auth, input, freshId, now);
    if o.comments != comments {
      var c := NewComment(freshId, input.content, auth.user.value.id, env.castId(input.postId.value), now);
      NewCommentConforms(freshId, input.content, auth.user.value.id, env.castId(input.postId.value), now);
      assert o.comments == comments + [c];
      assert forall k :: 0 <= k < |comments| ==> comments[k].id != c.id;
    }
  }

  /** createComment on the database, req.user already set. */
  method CreateCommentHandler(env: Env, db: Db, req: Request<CommentInput>, freshId: Id, now: nat)
      returns (r: Reply<Comment>)
    modifies db`comments
    ensures var o := CreateCommentHandlerOutcome(env, db.posts, old(db.comments), req.user, req.body, freshId, now);
      r == o.reply && db.comments == o.comments
  {
    var postId := req.body.postId;
    if !ValidPostId(env, postId) {
      return Reply(400, Message(INVALID_POST_ID));
    }
    if FindPost(db.posts, env.castId(postId.value)).None? {
      return Reply(404, Message(POST_NOT_FOUND));
    }
    if req.user.None? {
      return Reply(500, Message(SERVER_ERROR));
    }
    var c := NewComment(freshId, req.body.content, req.user.value.id, env.castId(postId.value), now);
    if !CommentSchemaValid(c) || FirstIndex(db.comments, (d: Comment) => d.id == freshId).Some? {
      return Reply(500, Message(SERVER_ERROR));
    }
    db.comments := db.comments + [c];
    r := Reply(201, Data(c));
  }

  /** router.post('/', authMiddleware, createComment). */
  method CreateComment(env: Env, db: Db, req: Request<CommentInput>, freshId: Id, now: nat)
      returns (r: Reply<Comment>)
    requires db.Valid()
    modifies db`comments, req`user
    ensures var o := CreateCommentOutcome(env, db.posts, old(db.comments), Authenticate(env, req.authorization, db.users, now),
                                          req.body, freshId, now);
      r == o.reply && db.comments == o.comments
    ensures db.Valid()
  {
    var auth := Protect<CommentInput, Comment>(env, db, req, now);
    if auth.Respond? {
      return auth.reply;
    }
    r := CreateCommentHandler(env, db, req, freshId, now);
    CreateCommentPreservesValid(env, db.posts, old(db.comments), Authenticate(env, req.authorization, db.users, now),
                                req.body, freshId, now);
  }

  function CommentCreatedAt(c: Comment): int { c.createdAt }

  /** getCommentsByPostId: 400 for an id ObjectId.isValid refuses; otherwise
      Comment.find({ post: postId }).sort({ createdAt: 1 }), answered with
      the default status 200. The query casts postId, so the comments found
      are those on the ObjectId it casts to, whatever its spelling. */
  function GetCommentsByPostId(env: Env, comments: seq<Comment>, postId: string): (r: Reply<seq<Comment>>)
    ensures !env.isObjectId(postId) ==> r == Reply(400, Message(INVALID_POST_ID))
    ensures env.isObjectId(postId) ==> r.status == 200 && r.body.Data?
    ensures r.status == 200 ==>
      && (forall c :: multiset(r.body.value)[c] == if c.post == env.castId(postId) then multiset(comments)[c] else 0)
      && (forall i :: 0 <= i < |r.body.value| ==> r.body.value[i].post == env.castId(postId))
      && (forall i, j :: 0 <= i < j < |r.body.value| ==> r.body.value[i].createdAt <= r.body.value[j].createdAt)
  {
    if !env.isObjectId(postId) then Reply(400, Message(INVALID_POST_ID))
    else
      var onPost := Filter(comments, (c: Comment) => c.post == env.castId(postId));
      var sorted := SortBy(onPost, CommentCreatedAt);
      PermutationKeeps(onPost, sorted, (c: Comment) => c.post == env.castId(postId));
      assert forall i, j :: 0 <= i < j < |sorted| ==> CommentCreatedAt(sorted[i]) <= CommentCreatedAt(sorted[j]);
      Reply(200, Data(sorted))
  }

  /** Two spellings of one ObjectId list the same comments. */
  lemma SpellingsListSameComments(env: Env, comments: seq<Comment>, s: string, t: string)
    requires env.isObjectId(s) && env.isObjectId(t) && env.castId(s) == env.castId(t)
    ensures GetCommentsByPostId(env, comments, s) == GetCommentsByPostId(env, comments, t)
  {
  }

  /** A comment just created is listed by getCommentsByPostId for the post
      id as it was sent. */
  lemma CreatedCommentIsListed(env: Env, posts: seq<Post>, comments: seq<Comment>, auth: AuthResult,
                               input: CommentInput, freshId: Id, now: nat)
    requires CreateCommentOutcome(env, posts, comments, auth, input, freshId, now).reply.status == 201
    ensures var o := CreateCommentOutcome(env, posts, comments, auth, input, freshId, now);
      var listed := GetCommentsByPostId(env, o.comments, input.postId.value);
      && o.reply.body.Data? && listed.status == 200 && listed.body.Data?
      && o.reply.body.value in listed.body.value
  {
    CreateCommentAddsOne(env, posts, comments, auth, input, freshId, now);
    var o := CreateCommentOutcome(env, posts, comments, auth, input, freshId, now);
    var c := o.reply.body.value;
    var listed := GetCommentsByPostId(env, o.comments, input.postId.value);
    assert o.comments[|comments|] == c;
    assert multiset(o.comments)[c] > 0;
    assert multiset(listed.body.value)[c] > 0;
  }
}
