/** server/models/Post.js: a post document, the schema's setters and
    defaults (trim, featuredImage, timestamps) and its validators. Mongoose
    reports at most one message per path, that of the first failing
    validator, `required` running first; paths are reported in schema order. */
module PostModel {
  import opened Base

  const TITLE_MIN_LENGTH: nat := 5
  const TITLE_MAX_LENGTH: nat := 200
  const DEFAULT_FEATURED_IMAGE: string := "placeholder.jpg"

  datatype Post = Post(
    id: Id,
    title: string,
    content: string,
    category: Id,       // reference to a Category
    user: Id,           // reference to the owning User
    featuredImage: string,
    createdAt: nat,     // maintained by `timestamps: true`
    updatedAt: nat)

  /** The fields of a request body that are schema paths; None is an absent
      field. Besides the declared paths these are _id, which the schema adds,
      and createdAt, which `timestamps: true` adds (its value taken as already
      cast to a time). updatedAt is a path too, but a new document's
      updatedAt is always overwritten, so it is not represented; fields that
      are not paths are dropped by strict mode. */
  datatype PostInput = PostInput(
    id: Option<string>,
    title: Option<string>,
    content: Option<string>,
    category: Option<string>,
    featuredImage: Option<string>,
    user: Option<string>,
    createdAt: Option<nat>)

  /** The title path's validators (required, minlength 5, maxlength 200) on
      the already trimmed value. */
  function TitleMessage(title: string): (m: Option<string>)
    ensures m.None? <==> TITLE_MIN_LENGTH <= Utf16Length(title) <= TITLE_MAX_LENGTH
  {
    if title == "" then Some("Post title is required")
    else if Utf16Length(title) < TITLE_MIN_LENGTH then Some("Title must be at least 5 characters")
    else if Utf16Length(title) > TITLE_MAX_LENGTH then Some("Title cannot exceed 200 characters")
    else None
  }

  /** A `required` validator on a string path. */
  function RequiredMessage(value: string, message: string): (m: Option<string>)
    ensures m.None? <==> value != ""
  {
    if value == "" then Some(message) else None
  }

  /** The messages of the present entries, in order. */
  function Present(ms: seq<Option<string>>): (r: seq<string>)
    ensures |r| <= |ms|
    ensures r == [] <==> forall i :: 0 <= i < |ms| ==> ms[i].None?
  {
    if ms == [] then []
    else (if ms[0].Some? then [ms[0].value] else []) + Present(ms[1..])
  }

  /** What a stored post satisfies: the title is trimmed and within bounds,
      and content, category and owner are present. */
  predicate PostConforms(p: Post) {
    && Trim(p.title) == p.title
    && TITLE_MIN_LENGTH <= Utf16Length(p.title) <= TITLE_MAX_LENGTH
    && p.content != "" && p.category != "" && p.user != ""
  }

  /** The validators' messages for saving `p`, in schema order. A path whose
      value failed to cast is not validated: `categoryCastFailed` skips the
      category path. */
  function PostSchemaMessages(p: Post, categoryCastFailed: bool): (ms: seq<string>)
    ensures |ms| <= 4
    ensures ms == [] <==>
      && TITLE_MIN_LENGTH <= Utf16Length(p.title) <= TITLE_MAX_LENGTH && p.content != ""
      && (!categoryCastFailed ==> p.category != "") && p.user != ""
  {
    var checks := [TitleMessage(p.title),
                   RequiredMessage(p.content, "Post content is required"),
                   if categoryCastFailed then None else RequiredMessage(p.category, "Category is required for the post"),
                   RequiredMessage(p.user, "Post creator is required")];
    assert checks[0].None? && checks[1].None? && checks[2].None? && checks[3].None?
      ==> forall i :: 0 <= i < |checks| ==> checks[i].None?;
    Present(checks)
  }

  /** new Post({ ...body, user: owner }) at time `now`: the _id default
      `freshId` gives way to a body _id, the title setter trims, an absent
      featuredImage takes the default, and the owner is `owner` whatever the
      body says. The save's timestamps keep a body createdAt and otherwise
      set `now`, and a new document's updatedAt copies its createdAt. An
      absent string field reads as empty, which `required` refuses like
      undefined. */
  function NewPost(freshId: Id, input: PostInput, owner: Id, now: nat): (p: Post)
    ensures p.user == owner
    ensures input.id.None? ==> p.id == freshId
    ensures input.id.Some? ==> p.id == input.id.value
    ensures input.featuredImage.None? ==> p.featuredImage == DEFAULT_FEATURED_IMAGE
    ensures input.createdAt.None? ==> p.createdAt == now
    ensures input.createdAt.Some? ==> p.createdAt == input.createdAt.value
    ensures p.updatedAt == p.createdAt
  {
    var createdAt := input.createdAt.GetOr(now);
    Post(input.id.GetOr(freshId), Trim(input.title.GetOr("")), input.content.GetOr(""), input.category.GetOr(""),
         owner, input.featuredImage.GetOr(DEFAULT_FEATURED_IMAGE), createdAt, createdAt)
  }

  /** A new post that passes validation is one the store may hold. */
  lemma NewPostConforms(freshId: Id, input: PostInput, owner: Id, now: nat)
    requires PostSchemaMessages(NewPost(freshId, input, owner, now), false) == []
    ensures PostConforms(NewPost(freshId, input, owner, now))
  {
    TrimIdempotent(input.title.GetOr(""));
  }

  /** The update validators (runValidators) on the paths the body sets,
      after the title setter has trimmed. */
  function PostUpdateMessages(input: PostInput): (ms: seq<string>)
    ensures ms == [] <==>
      && (input.title.Some? ==> TITLE_MIN_LENGTH <= Utf16Length(Trim(input.title.value)) <= TITLE_MAX_LENGTH)
      && (input.content.Some? ==> input.content.value != "")
      && (input.category.Some? ==> input.category.value != "")
      && (input.user.Some? ==> input.user.value != "")
  {
    var checks :=
      [if input.title.Some? then TitleMessage(Trim(input.title.value)) else None,
       if input.content.Some? then RequiredMessage(input.content.value, "Post content is required") else None,
       if input.category.Some? then RequiredMessage(input.category.value, "Category is required for the post") else None,
       if input.user.Some? then RequiredMessage(input.user.value, "Post creator is required") else None];
    assert checks[0].None? && checks[1].None? && checks[2].None? && checks[3].None?
      ==> forall i :: 0 <= i < |checks| ==> checks[i].None?;
    Present(checks)
  }

  /** findByIdAndUpdate(id, body): every declared field the body sets is
      written (the title trimmed), every other field is kept, updatedAt
      becomes `now`; the id and createdAt never change (timestamps make
      createdAt immutable, so a body createdAt is dropped, and a body _id is
      not applied here). */
  function ApplyPostUpdate(p: Post, input: PostInput, now: nat): (q: Post)
    ensures q.id == p.id && q.createdAt == p.createdAt && q.updatedAt == now
    ensures input.title.None? ==> q.title == p.title
    ensures input.content.None? ==> q.content == p.content
    ensures input.category.None? ==> q.category == p.category
    ensures input.user.None? ==> q.user == p.user
    ensures input.featuredImage.None? ==> q.featuredImage == p.featuredImage
    ensures input.user.Some? ==> q.user == input.user.value
  {
    p.(title := if input.title.Some? then Trim(input.title.value) else p.title,
       content := input.content.GetOr(p.content),
       category := input.category.GetOr(p.category),
       user := input.user.GetOr(p.user),
       featuredImage := input.featuredImage.GetOr(p.featuredImage),
       updatedAt := now)
  }

  /** An update that passes the update validators keeps a conforming post
      conforming. */
  lemma UpdatePreservesConformance(p: Post, input: PostInput, now: nat)
    requires PostConforms(p)
    requires PostUpdateMessages(input) == []
    ensures PostConforms(ApplyPostUpdate(p, input, now))
  {
    if input.title.Some? {
      TrimIdempotent(input.title.value);
    }
  }
}
