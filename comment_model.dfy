/** server/models/Comment.js: a comment document and its schema. */
module CommentModel {
  import opened Base

  const CONTENT_MAX_LENGTH: nat := 500

  datatype Comment = Comment(
    id: Id,
    content: string,
    user: Id,        // reference to the author
    post: Id,        // reference to the commented post
    createdAt: nat)  // defaults to the creation time

  /** new Comment({ content, user, post }) at time `now`: the content setter
      trims; createdAt takes its default. An absent content reads as empty. */
  function NewComment(id: Id, content: Option<string>, user: Id, post: Id, now: nat): (c: Comment)
    ensures c.user == user && c.post == post && c.createdAt == now
  {
    Comment(id, Trim(content.GetOr("")), user, post, now)
  }

  /** The schema's validators: content required and at most 500 characters
      (after trimming), author and post present. */
  predicate CommentSchemaValid(c: Comment) {
    c.content != "" && Utf16Length(c.content) <= CONTENT_MAX_LENGTH && c.user != "" && c.post != ""
  }

  /** What a stored comment satisfies. */
  predicate CommentConforms(c: Comment) {
    Trim(c.content) == c.content && CommentSchemaValid(c)
  }

  /** A new comment that passes validation is one the store may hold, and
      its content is the submitted text without surrounding white space. */
  lemma NewCommentConforms(id: Id, content: Option<string>, user: Id, post: Id, now: nat)
    requires CommentSchemaValid(NewComment(id, content, user, post, now))
    ensures CommentConforms(NewComment(id, content, user, post, now))
  {
    TrimIdempotent(content.GetOr(""));
  }
}
