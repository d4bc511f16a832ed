/** server/routes/postRoutes.js: the five post endpoints. Each mutating
    endpoint runs authMiddleware, then (create and update) the validation
    chains, then the handler; an error the handler does not answer itself is
    passed to the central error handler. Each handler's decision is the
    pure function `...Outcome` (the reply and the new posts collection); the
    methods carry it out on the database and the request. */
module PostRoutes {
  import opened Base
  import opened Http
  import opened Collaborators
  import opened Query
  import opened PostModel
  import opened UserModel
  import opened Store
  import opened ErrorHandler
  import opened AuthMiddleware
  import opened PostValidator

  const POST_NOT_FOUND: string := "Post not found"
  const INVALID_POST_ID: string := "Invalid Post ID format"
  const NOT_AUTHORIZED_UPDATE: string := "Not authorized to update this post"
  const NOT_AUTHORIZED_DELETE: string := "Not authorized to delete this post"

  /** What a handler answers and the posts collection it leaves. */
  datatype Outcome = Outcome(reply: Reply<Post>, posts: seq<Post>)

  /** sort({ createdAt: -1 }) as an ascending sort on the negated time. */
  function NewestFirst(p: Post): int { -(p.createdAt as int) }

  /** GET /api/posts: every stored post, newest first. */
  method ListPosts(db: Db) returns (r: Reply<seq<Post>>)
    ensures r.status == 200 && r.body.Data?
    ensures multiset(r.body.value) == multiset(db.posts)
    ensures forall i, j :: 0 <= i < j < |r.body.value| ==> r.body.value[i].createdAt >= r.body.value[j].createdAt
  {
    var sorted := SortBy(db.posts, NewestFirst);
    assert forall i, j :: 0 <= i < j < |sorted| ==> NewestFirst(sorted[i]) <= NewestFirst(sorted[j]);
    r := Reply(200, Data(sorted));
  }

  /** GET /api/posts/:id: findById throws a CastError of kind ObjectId for
      an id it cannot cast (400); otherwise it looks up the ObjectId the id
      casts to, whatever its spelling, and no post with it gives 404. */
  method GetPost(env: Env, db: Db, id: string) returns (r: Reply<Post>)
    ensures !env.isObjectId(id) ==> r == Reply(400, Message(INVALID_POST_ID))
    ensures env.isObjectId(id) && (forall k :: 0 <= k < |db.posts| ==> db.posts[k].id != env.castId(id)) ==>
      r == Reply(404, Message(POST_NOT_FOUND))
    ensures r.status == 200 <==> env.isObjectId(id) && exists k :: 0 <= k < |db.posts| && db.posts[k].id == env.castId(id)
    ensures r.status == 200 ==> r.body.Data? && r.body.value.id == env.castId(id) && r.body.value in db.posts
  {
    if !env.isObjectId(id) {
      return Reply(400, Message(INVALID_POST_ID));
    }
    var found := FindPost(db.posts, env.castId(id));
    if found.None? {
      return Reply(404, Message(POST_NOT_FOUND));
    }
    r := Reply(200, Data(db.posts[found.value]));
  }

  /** The new document could not cast the body's category, or its _id, to
      an ObjectId. */
  predicate CategoryCastFails(env: Env, input: PostInput) {
    input.category.Some? && !env.isObjectId(input.category.value)
  }

  predicate IdCastFails(env: Env, input: PostInput) {
    input.id.Some? && !env.isObjectId(input.id.value)
  }

  /** The body as the document holds it: mongoose casts the ObjectId paths
      (_id, category, user) and keeps the ObjectIds they cast to; the other
      paths are kept as sent. */
  function CastBody(env: Env, input: PostInput): PostInput {
    input.(id := if input.id.Some? then Some(env.castId(input.id.value)) else None,
           category := if input.category.Some? then Some(env.castId(input.category.value)) else None,
           user := if input.user.Some? then Some(env.castId(input.user.value)) else None)
  }

  /** The messages of the ValidationError save() rejects with: each path the
      document could not cast reports mongoose's cast message, category
      before _id (the schema adds _id after the declared paths), then the
      validators of the other paths report in schema order. */
  function SaveMessages(env: Env, input: PostInput, p: Post): (ms: seq<string>)
    ensures ms == [] <==>
      !CategoryCastFails(env, input) && !IdCastFails(env, input) && PostSchemaMessages(p, false) == []
    ensures CategoryCastFails(env, input) ==> ms[0] == env.castMessage(input.category.value, "category")
    ensures !CategoryCastFails(env, input) && IdCastFails(env, input) ==> ms[0] == env.castMessage(input.id.value, "_id")
  {
    (if CategoryCastFails(env, input) then [env.castMessage(input.category.value, "category")] else [])
    + (if IdCastFails(env, input) then [env.castMessage(input.id.value, "_id")] else [])
    + PostSchemaMessages(p, CategoryCastFails(env, input))
  }

  /** The POST /api/posts handler proper, after the middleware:
      new Post({ ...req.body, user: req.user._id }).save(). A null req.user
      throws a TypeError, and a value the document cannot cast or a schema
      failure a ValidationError, both handed to the error handler; a clash
      on _id is a duplicate-key error. */
  function CreateHandlerOutcome(env: Env, posts: seq<Post>, user: Option<PublicUser>, input: PostInput,
                                freshId: Id, now: nat): (o: Outcome)
    ensures o.posts == posts || o.reply.status == 201
    ensures user.None? ==> o.reply.status == 500
    ensures user.Some? && SaveMessages(env, input, NewPost(freshId, CastBody(env, input), user.value.id, now)) != [] ==>
      && o.reply.status == 400 && o.posts == posts && o.reply.body.MessageAndStack?
      && o.reply.body.message == Join(SaveMessages(env, input, NewPost(freshId, CastBody(env, input), user.value.id, now)), "; ")
    ensures (&& user.Some?
             && var p := NewPost(freshId, CastBody(env, input), user.value.id, now);
                SaveMessages(env, input, p) == [] && FindPost(posts, p.id).Some?) ==>
      o.reply.status == 500 && o.reply.body.MessageAndStack? && o.reply.body.message == DUPLICATE_KEY_MESSAGE && o.posts == posts
  {
    if user.None? then Outcome(HandleError(NullUserError(), 200, env.production), posts)
    else
      var p := NewPost(freshId, CastBody(env, input), user.value.id, now);
      var messages := SaveMessages(env, input, p);
      if messages != [] then Outcome(HandleError(ValidationError(messages), 200, env.production), posts)
      else if FindPost(posts, p.id).Some? then Outcome(HandleError(DuplicateKeyError(), 200, env.production), posts)
      else Outcome(Reply(201, Data(p)), posts + [p])
  }

  /** POST /api/posts: authMiddleware, createPostValidation, the handler. */
  function CreateOutcome(env: Env, posts: seq<Post>, auth: AuthResult, input: PostInput,
                         freshId: Id, now: nat): (o: Outcome)
    ensures o.posts == posts || o.reply.status == 201
    ensures auth.Denied? ==> o.reply == Reply(401, Message(auth.message))
    ensures auth.Accepted? && CreatePostErrors(input) != [] ==> o.reply == Reply(400, Errors(CreatePostErrors(input)))
    ensures auth.Accepted? && CreatePostErrors(input) == [] ==>
      o == CreateHandlerOutcome(env, posts, auth.user, input, freshId, now)
  {
    match auth
    case Denied(message) => Outcome(Reply(401, Message(message)), posts)
    case Accepted(user) =>
      var errs := CreatePostErrors(input);
      if errs != [] then Outcome(Reply(400, Errors(errs)), posts)
      else CreateHandlerOutcome(env, posts, user, input, freshId, now)
  }

  /** A created post is appended with the authenticated user as its owner,
      whatever `user` the body carried, and with the body's other fields. */
  lemma CreateStoresOwnedPost(env: Env, posts: seq<Post>, auth: AuthResult, input: PostInput, freshId: Id, now: nat)
    requires CreateOutcome(env, posts, auth, input, freshId, now).reply.status == 201
    ensures var o := CreateOutcome(env, posts, auth, input, freshId, now);
      && auth.Accepted? && auth.user.Some?
      && o.reply.body.Data?
      && o.posts == posts + [o.reply.body.value]
      && o.reply.body.value == NewPost(freshId, CastBody(env, input), auth.user.value.id, now)
      && o.reply.body.value.user == auth.user.value.id
      && o.reply.body.value.content == input.content.value
      && o.reply.body.value.category == env.castId(input.category.value)
      && o.reply.body.value.title == Trim(input.title.value)
  {
  }

  /** An authenticated request whose body passes the chains, whose values
      the document can cast, whose trimmed title fits the schema and whose
      _id is not taken is answered 201, and exactly the new post is
      appended. The chains and the schema measure the title differently, so
      the schema's bound is a condition of its own. */
  lemma ValidCreateSucceeds(env: Env, posts: seq<Post>, user: PublicUser, input: PostInput, freshId: Id, now: nat)
    requires Sound(env)
    requires CreatePostErrors(input) == []
    requires TITLE_MIN_LENGTH <= Utf16Length(Trim(input.title.value)) <= TITLE_MAX_LENGTH
    requires !CategoryCastFails(env, input) && !IdCastFails(env, input)
    requires user.id != ""
    requires forall k :: 0 <= k < |posts| ==> posts[k].id != CastBody(env, input).id.GetOr(freshId)
    ensures var p := NewPost(freshId, CastBody(env, input), user.id, now);
      CreateOutcome(env, posts, Accepted(Some(user)), input, freshId, now) == Outcome(Reply(201, Data(p)), posts + [p])
  {
    var p := NewPost(freshId, CastBody(env, input), user.id, now);
    assert PostSchemaMessages(p, false) == [];
  }

  /** A category of "0x" and 22 hexadecimal digits passes the chain's
      isMongoId; if mongoose cannot cast it, the request with an otherwise
      valid body is answered 400 with the cast message first, not with the
      chain's 'Invalid Category ID format'. */
  lemma PrefixedCategoryFailsCast(env: Env, posts: seq<Post>, user: PublicUser, input: PostInput, freshId: Id, now: nat)
    requires CreatePostErrors(input) == []
    requires !env.isObjectId(input.category.value)
    ensures var o := CreateOutcome(env, posts, Accepted(Some(user)), input, freshId, now);
      var ms := SaveMessages(env, input, NewPost(freshId, CastBody(env, input), user.id, now));
      && o.reply.status == 400 && o.posts == posts
      && ms != [] && ms[0] == env.castMessage(input.category.value, "category")
      && o.reply.body == MessageAndStack(Join(ms, "; "), if env.production then None else Some(ValidationError(ms).stack))
  {
  }

  /** Appending a conforming post with a new id keeps the collection's
      invariant. */
  lemma AppendPostKeepsValid(posts: seq<Post>, p: Post)
    requires PostsValid(posts) && PostConforms(p)
    requires forall k :: 0 <= k < |posts| ==> posts[k].id != p.id
    ensures PostsValid(posts + [p])
  {
    var s := posts + [p];
    assert forall k :: 0 <= k < |posts| ==> s[k] == posts[k];
    assert s[|posts|] == p;
  }

  /** Creating keeps the collection's invariant. */
  lemma CreatePreservesValid(env: Env, posts: seq<Post>, auth: AuthResult, input: PostInput, freshId: Id, now: nat)
    requires PostsValid(posts)
    ensures PostsValid(CreateOutcome(env, posts, auth, input, freshId, now).posts)
  {
    if auth.Accepted? && auth.user.Some? && CreatePostErrors(input) == [] {
      var p := NewPost(freshId, CastBody(env, input), auth.user.value.id, now);
      if SaveMessages(env, input, p) == [] && FindPost(posts, p.id).None? {
        NewPostConforms(freshId, CastBody(env, input), auth.user.value.id, now);
        AppendPostKeepsValid(posts, p);
      }
    }
  }

  /** Is the requester the post's owner? `post.user.toString() !==
      req.user._id.toString()` on ids. */
  predicate OwnedBy(p: Post, user: PublicUser) {
    p.user == user.id
  }

  /** A field of the update body that findByIdAndUpdate cannot cast to an
      ObjectId (category or user) throws a CastError of kind ObjectId. */
  predicate UpdateCastFails(env: Env, input: PostInput) {
    || (input.category.Some? && !env.isObjectId(input.category.value))
    || (input.user.Some? && !env.isObjectId(input.user.value))
  }

  /** The PUT /api/posts/:id handler proper, after the middleware: find,
      404, ownership (403), findByIdAndUpdate with runValidators. Every
      CastError of kind ObjectId, from the id or from the body, is answered
      400 'Invalid Post ID format'. */
  function UpdateHandlerOutcome(env: Env, posts: seq<Post>, user: Option<PublicUser>, input: PostInput,
                                id: string, now: nat): (o: Outcome)
    ensures o.posts == posts || o.reply.status == 200
    ensures !env.isObjectId(id) ==> o.reply == Reply(400, Message(INVALID_POST_ID))
    ensures env.isObjectId(id) && FindPost(posts, env.castId(id)).None? ==> o.reply == Reply(404, Message(POST_NOT_FOUND))
    ensures (&& env.isObjectId(id) && FindPost(posts, env.castId(id)).Some?
             && user.Some? && !OwnedBy(posts[FindPost(posts, env.castId(id)).value], user.value)) ==>
      o.reply == Reply(403, Message(NOT_AUTHORIZED_UPDATE))
  {
    if !env.isObjectId(id) then Outcome(Reply(400, Message(INVALID_POST_ID)), posts)
    else match FindPost(posts, env.castId(id))
      case None => Outcome(Reply(404, Message(POST_NOT_FOUND)), posts)
      case Some(i) =>
        if user.None? then Outcome(HandleError(NullUserError(), 200, env.production), posts)
        else if !OwnedBy(posts[i], user.value) then Outcome(Reply(403, Message(NOT_AUTHORIZED_UPDATE)), posts)
        else if UpdateCastFails(env, input) then Outcome(Reply(400, Message(INVALID_POST_ID)), posts)
        else
          var messages := PostUpdateMessages(CastBody(env, input));
          if messages != [] then Outcome(HandleError(ValidationError(messages), 200, env.production), posts)
          else
            var updated := ApplyPostUpdate(posts[i], CastBody(env, input), now);
            Outcome(Reply(200, Data(updated)), posts[i := updated])
  }

  /** PUT /api/posts/:id: authMiddleware, updatePostValidation, the handler. */
  function UpdateOutcome(env: Env, posts: seq<Post>, auth: AuthResult, input: PostInput,
                         id: string, now: nat): (o: Outcome)
    ensures o.posts == posts || o.reply.status == 200
    ensures auth.Denied? ==> o.reply == Reply(401, Message(auth.message))
    ensures auth.Accepted? && UpdatePostErrors(input) != [] ==> o.reply == Reply(400, Errors(UpdatePostErrors(input)))
    ensures auth.Accepted? && UpdatePostErrors(input) == [] ==>
      o == UpdateHandlerOutcome(env, posts, auth.user, input, id, now)
  {
    match auth
    case Denied(message) => Outcome(Reply(401, Message(message)), posts)
    case Accepted(user) =>
      var errs := UpdatePostErrors(input);
      if errs != [] then Outcome(Reply(400, Errors(errs)), posts)
      else UpdateHandlerOutcome(env, posts, user, input, id, now)
  }

  /** Only the owner's request changes the collection, and then only the
      post with the requested id: every other post stays as it was. */
  lemma UpdateOnlyByOwner(env: Env, posts: seq<Post>, auth: AuthResult, input: PostInput, id: string, now: nat)
    ensures var o := UpdateOutcome(env, posts, auth, input, id, now);
      && |o.posts| == |posts|
      && (forall k :: 0 <= k < |posts| && posts[k].id != env.castId(id) ==> o.posts[k] == posts[k])
      && (o.posts != posts ==>
            && o.reply.status == 200
            && auth.Accepted? && auth.user.Some?
            && FindPost(posts, env.castId(id)).Some?
            && OwnedBy(posts[FindPost(posts, env.castId(id)).value], auth.user.value))
  {
  }

  /** The owner's successful update writes exactly the body's fields into
      the post, the title trimmed; the body is not filtered, so a `user` in
      it hands the post to that user. */
  lemma UpdateWritesBody(env: Env, posts: seq<Post>, auth: AuthResult, input: PostInput, id: string, now: nat)
    requires UpdateOutcome(env, posts, auth, input, id, now).reply.status == 200
    ensures var o := UpdateOutcome(env, posts, auth, input, id, now);
      var i := FindPost(posts, env.castId(id)).value;
      && o.posts == posts[i := ApplyPostUpdate(posts[i], CastBody(env, input), now)]
      && o.reply.body == Data(o.posts[i])
      && (input.user.Some? ==> o.posts[i].user == env.castId(input.user.value))
      && (input.content.Some? ==> o.posts[i].content == input.content.value)
      && (input.title.Some? ==> o.posts[i].title == Trim(input.title.value))
  {
  }

  /** The owner's update of a stored post, with a body that passes the
      chains, that findByIdAndUpdate can cast and that the schema's
      validators accept, is answered 200 with the updated post, which
      replaces the stored one in place. */
  lemma {:induction false} OwnerCanUpdate(env: Env, posts: seq<Post>, user: PublicUser, input: PostInput,
                                          id: string, now: nat, i: nat)
    requires Sound(env)
    requires PostsValid(posts)
    requires env.isObjectId(id)
    requires i < |posts| && posts[i].id == env.castId(id) && OwnedBy(posts[i], user)
    requires UpdatePostErrors(input) == [] && !UpdateCastFails(env, input)
    requires input.title.Some? ==> TITLE_MIN_LENGTH <= Utf16Length(Trim(input.title.value)) <= TITLE_MAX_LENGTH
    ensures var updated := ApplyPostUpdate(posts[i], CastBody(env, input), now);
      UpdateOutcome(env, posts, Accepted(Some(user)), input, id, now) == Outcome(Reply(200, Data(updated)), posts[i := updated])
  {
    var found := FindPost(posts, env.castId(id));
    assert found == Some(i) by {
      assert PostId(posts[found.value]) == PostId(posts[i]);
    }
    assert PostUpdateMessages(CastBody(env, input)) == [];
  }

  /** Updating keeps the collection's invariant. */
  lemma UpdatePreservesValid(env: Env, posts: seq<Post>, auth: AuthResult, input: PostInput, id: string, now: nat)
    requires PostsValid(posts)
    ensures PostsValid(UpdateOutcome(env, posts, auth, input, id, now).posts)
  {
    var o := UpdateOutcome(env, posts, auth, input, id, now);
    if o.posts != posts {
      var i := FindPost(posts, env.castId(id)).value;
      UpdatePreservesConformance(posts[i], CastBody(env, input), now);
      assert o.posts == posts[i := ApplyPostUpdate(posts[i], CastBody(env, input), now)];
      forall a, b | 0 <= a < b < |o.posts|
        ensures PostId(o.posts[a]) != PostId(o.posts[b])
      {
        assert PostId(o.posts[a]) == PostId(posts[a]) && PostId(o.posts[b]) == PostId(posts[b]);
      }
    }
  }

  /** The DELETE /api/posts/:id handler proper, after authMiddleware:
      find, 404, ownership (403), findByIdAndDelete and 204 with an empty
      body. */
  function DeleteHandlerOutcome(env: Env, posts: seq<Post>, user: Option<PublicUser>, id: string): (o: Outcome)
    ensures o.posts == posts || o.reply == Reply(204, NoContent)
    ensures !env.isObjectId(id) ==> o.reply == Reply(400, Message(INVALID_POST_ID))
    ensures env.isObjectId(id) && FindPost(posts, env.castId(id)).None? ==> o.reply == Reply(404, Message(POST_NOT_FOUND))
    ensures (&& env.isObjectId(id) && FindPost(posts, env.castId(id)).Some?
             && user.Some? && !OwnedBy(posts[FindPost(posts, env.castId(id)).value], user.value)) ==>
      o.reply == Reply(403, Message(NOT_AUTHORIZED_DELETE))
  {
    if !env.isObjectId(id) then Outcome(Reply(400, Message(INVALID_POST_ID)), posts)
    else match FindPost(posts, env.castId(id))
      case None => Outcome(Reply(404, Message(POST_NOT_FOUND)), posts)
      case Some(i) =>
        if user.None? then Outcome(HandleError(NullUserError(), 200, env.production), posts)
        else if !OwnedBy(posts[i], user.value) then Outcome(Reply(403, Message(NOT_AUTHORIZED_DELETE)), posts)
        else Outcome(Reply(204, NoContent), posts[..i] + posts[i + 1..])
  }

  /** DELETE /api/posts/:id: authMiddleware, the handler. */
  function DeleteOutcome(env: Env, posts: seq<Post>, auth: AuthResult, id: string): (o: Outcome)
    ensures o.posts == posts || o.reply == Reply(204, NoContent)
    ensures auth.Denied? ==> o.reply == Reply(401, Message(auth.message))
    ensures auth.Accepted? ==> o == DeleteHandlerOutcome(env, posts, auth.user, id)
  {
    match auth
    case Denied(message) => Outcome(Reply(401, Message(message)), posts)
    case Accepted(user) => DeleteHandlerOutcome(env, posts, user, id)
  }

  /** Only the owner's request removes anything, and then exactly the post
      with the requested id: every other post is kept, in order. */
  lemma DeleteOnlyByOwner(env: Env, posts: seq<Post>, auth: AuthResult, id: string)
    ensures var o := DeleteOutcome(env, posts, auth, id);
      && (forall k :: 0 <= k < |posts| && posts[k].id != env.castId(id) ==> posts[k] in o.posts)
      && (o.posts != posts ==>
            && auth.Accepted? && auth.user.Some?
            && FindPost(posts, env.castId(id)).Some?
            && OwnedBy(posts[FindPost(posts, env.castId(id)).value], auth.user.value)
            && multiset(o.posts) + multiset{posts[FindPost(posts, env.castId(id)).value]} == multiset(posts))
  {
    var o := DeleteOutcome(env, posts, auth, id);
    if o.posts != posts {
      var i := FindPost(posts, env.castId(id)).value;
      assert posts == posts[..i] + [posts[i]] + posts[i + 1..];
      forall k | 0 <= k < |posts| && posts[k].id != env.castId(id)
        ensures posts[k] in o.posts
      {
        if k < i {
          assert posts[k] == o.posts[k];
        } else {
          assert k > i;
          assert posts[k] == o.posts[k - 1];
        }
      }
    }
  }

  /** The owner's delete of a stored post is answered 204 with an empty
      body and removes exactly that post, the others kept in order. */
  lemma {:induction false} OwnerCanDelete(env: Env, posts: seq<Post>, user: PublicUser, id: string, i: nat)
    requires PostsValid(posts)
    requires env.isObjectId(id)
    requires i < |posts| && posts[i].id == env.castId(id) && OwnedBy(posts[i], user)
    ensures DeleteOutcome(env, posts, Accepted(Some(user)), id) == Outcome(Reply(204, NoContent), posts[..i] + posts[i + 1..])
  {
    var found := FindPost(posts, env.castId(id));
    assert found == Some(i) by {
      assert PostId(posts[found.value]) == PostId(posts[i]);
    }
  }

  /** With unique ids, a delete that succeeds leaves no post with that id,
      and the collection keeps its invariant. */
  lemma DeleteRemovesId(env: Env, posts: seq<Post>, auth: AuthResult, id: string)
    requires PostsValid(posts)
    requires DeleteOutcome(env, posts, auth, id).reply.status == 204
    ensures forall k :: 0 <= k < |DeleteOutcome(env, posts, auth, id).posts| ==>
      DeleteOutcome(env, posts, auth, id).posts[k].id != env.castId(id)
    ensures PostsValid(DeleteOutcome(env, posts, auth, id).posts)
  {
    var i := FindPost(posts, env.castId(id)).value;
    var rest := posts[..i] + posts[i + 1..];
    assert DeleteOutcome(env, posts, auth, id).posts == rest;
    forall k | 0 <= k < |rest|
      ensures rest[k].id != env.castId(id) && PostConforms(rest[k])
    {
      RemoveAtIndex(posts, i, k);
      if k >= i {
        assert PostId(posts[i]) != PostId(posts[k + 1]);
      }
    }
    forall a, b | 0 <= a < b < |rest|
      ensures PostId(rest[a]) != PostId(rest[b])
    {
      RemoveAtIndex(posts, i, a);
      RemoveAtIndex(posts, i, b);
    }
  }

  /** findById, findByIdAndUpdate and findByIdAndDelete cast the id, so two
      spellings of one ObjectId (upper- and lower-case hexadecimal, say) are
      the same request to update and to delete. */
  lemma SpellingsOfOneIdAgree(env: Env, posts: seq<Post>, auth: AuthResult, input: PostInput, s: string, t: string, now: nat)
    requires env.isObjectId(s) && env.isObjectId(t) && env.castId(s) == env.castId(t)
    ensures UpdateOutcome(env, posts, auth, input, s, now) == UpdateOutcome(env, posts, auth, input, t, now)
    ensures DeleteOutcome(env, posts, auth, s) == DeleteOutcome(env, posts, auth, t)
  {
  }

  /** The POST /api/posts handler on the database. */
  method CreateHandler(env: Env, db: Db, req: Request<PostInput>, freshId: Id, now: nat) returns (r: Reply<Post>)
    modifies db`posts
    ensures var o := CreateHandlerOutcome(env, old(db.posts), req.user, req.body, freshId, now);
      r == o.reply && db.posts == o.posts
  {
    if req.user.None? {
      return HandleError(NullUserError(), 200, env.production);
    }
    var p := NewPost(freshId, CastBody(env, req.body), req.user.value.id, now);
    var messages := SaveMessages(env, req.body, p);
    if messages != [] {
      return HandleError(ValidationError(messages), 200, env.production);
    }
    if FindPost(db.posts, p.id).Some? {
      return HandleError(DuplicateKeyError(), 200, env.production);
    }
    db.posts := db.posts + [p];
    r := Reply(201, Data(p));
  }

  /** router.post('/', authMiddleware, createPostValidation, handler). */
  method Create(env: Env, db: Db, req: Request<PostInput>, freshId: Id, now: nat) returns (r: Reply<Post>)
    requires db.Valid()
    modifies db`posts, req`user
    ensures var o := CreateOutcome(env, old(db.posts), Authenticate(env, req.authorization, db.users, now), req.body, freshId, now);
      r == o.reply && db.posts == o.posts
    ensures db.Valid()
  {
    ghost var posts := db.posts;
    ghost var accepted := Authenticate(env, req.authorization, db.users, now);
    var auth := Protect<PostInput, Post>(env, db, req, now);
    if auth.Respond? {
      return auth.reply;
    }
    var validation := HandleValidationErrors<Post>(CreatePostErrors(req.body));
    if validation.Respond? {
      return validation.reply;
    }
    r := CreateHandler(env, db, req, freshId, now);
    CreatePreservesValid(env, posts, accepted, req.body, freshId, now);
  }

  /** The PUT /api/posts/:id handler on the database. */
  method UpdateHandler(env: Env, db: Db, req: Request<PostInput>, id: string, now: nat) returns (r: Reply<Post>)
    modifies db`posts
    ensures var o := UpdateHandlerOutcome(env, old(db.posts), req.user, req.body, id, now);
      r == o.reply && db.posts == o.posts
  {
    if !env.isObjectId(id) {
      return Reply(400, Message(INVALID_POST_ID));
    }
    var found := FindPost(db.posts, env.castId(id));
    if found.None? {
      return Reply(404, Message(POST_NOT_FOUND));
    }
    var post := db.posts[found.value];
    if req.user.None? {
      return HandleError(NullUserError(), 200, env.production);
    }
    if !OwnedBy(post, req.user.value) {
      return Reply(403, Message(NOT_AUTHORIZED_UPDATE));
    }
    if UpdateCastFails(env, req.body) {
      return Reply(400, Message(INVALID_POST_ID));
    }
    var messages := PostUpdateMessages(CastBody(env, req.body));
    if messages != [] {
      return HandleError(ValidationError(messages), 200, env.production);
    }
    var updated := ApplyPostUpdate(post, CastBody(env, req.body), now);
    db.posts := db.posts[found.value := updated];
    r := Reply(200, Data(updated));
  }

  /** router.put('/:id', authMiddleware, updatePostValidation, handler). */
  method Update(env: Env, db: Db, req: Request<PostInput>, id: string, now: nat) returns (r: Reply<Post>)
    requires db.Valid()
    modifies db`posts, req`user
    ensures var o := UpdateOutcome(env, old(db.posts), Authenticate(env, req.authorization, db.users, now), req.body, id, now);
      r == o.reply && db.posts == o.posts
    ensures db.Valid()
  {
    ghost var posts := db.posts;
    ghost var accepted := Authenticate(env, req.authorization, db.users, now);
    var auth := Protect<PostInput, Post>(env, db, req, now);
    if auth.Respond? {
      return auth.reply;
    }
    var validation := HandleValidationErrors<Post>(UpdatePostErrors(req.body));
    if validation.Respond? {
      return validation.reply;
    }
    r := UpdateHandler(env, db, req, id, now);
    UpdatePreservesValid(env, posts, accepted, req.body, id, now);
  }

  /** Every delete request, answered or refused, leaves the posts
      collection valid. */
  lemma DeletePreservesValid(env: Env, posts: seq<Post>, auth: AuthResult, id: string)
    requires PostsValid(posts)
    ensures PostsValid(DeleteOutcome(env, posts, auth, id).posts)
  {
    if DeleteOutcome(env, posts, auth, id).reply.status == 204 {
      DeleteRemovesId(env, posts, auth, id);
    }
  }

  /** The DELETE /api/posts/:id handler on the database. */
  method DeleteHandler(env: Env, db: Db, req: Request<PostInput>, id: string) returns (r: Reply<Post>)
    modifies db`posts
    ensures var o := DeleteHandlerOutcome(env, old(db.posts), req.user, id);
      r == o.reply && db.posts == o.posts
  {
    if !env.isObjectId(id) {
      return Reply(400, Message(INVALID_POST_ID));
    }
    var found := FindPost(db.posts, env.castId(id));
    if found.None? {
      return Reply(404, Message(POST_NOT_FOUND));
    }
    if req.user.None? {
      return HandleError(NullUserError(), 200, env.production);
    }
    if !OwnedBy(db.posts[found.value], req.user.value) {
      return Reply(403, Message(NOT_AUTHORIZED_DELETE));
    }
    var i := found.value;
    db.posts := db.posts[..i] + db.posts[i + 1..];
    r := Reply(204, NoContent);
  }

  /** router.delete('/:id', authMiddleware, handler). */
  method Delete(env: Env, db: Db, req: Request<PostInput>, id: string, now: nat) returns (r: Reply<Post>)
    requires db.Valid()
    modifies db`posts, req`user
    ensures var o := DeleteOutcome(env, old(db.posts), Authenticate(env, req.authorization, db.users, now), id);
      r == o.reply && db.posts == o.posts
    ensures db.Valid()
  {
    ghost var posts := db.posts;
    ghost var accepted := Authenticate(env, req.authorization, db.users, now);
    var auth := Protect<PostInput, Post>(env, db, req, now);
    if auth.Respond? {
      return auth.reply;
    }
    r := DeleteHandler(env, db, req, id);
    assert DeleteOutcome(env, posts, accepted, id) == DeleteHandlerOutcome(env, posts, req.user, id);
    DeletePreservesValid(env, posts, accepted, id);
  }
}
