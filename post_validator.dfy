/** server/middleware/postValidator.js: the express-validator chains for
    creating and updating a post and the middleware that answers 400 with
    every collected error. Each chain runs all of its validators (none
    bails), so a field can report several errors; errors.array() lists them
    in chain order, title before content before category. A field absent
    from the body reads as the empty string to the validators, except that
    optional() skips an absent field altogether. */
module PostValidator {
  import opened Base
  import opened Http
  import opened Collaborators
  import opened PostModel

  const TITLE_REQUIRED: string := "Title is required"
  const TITLE_LENGTH: string := "Title must be between 5 and 200 characters"
  const CONTENT_REQUIRED: string := "Content is required"
  const CONTENT_LENGTH: string := "Content must be at least 10 characters long"
  const CATEGORY_REQUIRED: string := "Category ID is required"
  const CATEGORY_FORMAT: string := "Invalid Category ID format"

  const TITLE_MIN: nat := 5
  const TITLE_MAX: nat := 200
  const CONTENT_MIN: nat := 10

  /** One validator of a chain: its error, if the value fails `ok`. */
  function Check(path: string, ok: bool, message: string): (errs: seq<FieldError>)
    ensures errs == [] <==> ok
  {
    if ok then [] else [FieldError(path, message)]
  }

  predicate TitleLengthOk(title: string) {
    TITLE_MIN <= ValidatorLength(title) <= TITLE_MAX
  }

  predicate ContentLengthOk(content: string) {
    ValidatorLength(content) >= CONTENT_MIN
  }

  /** The create rules as a condition on the body. */
  predicate CreatePostValid(input: PostInput) {
    && input.title.Some? && input.title.value != "" && TitleLengthOk(input.title.value)
    && input.content.Some? && input.content.value != "" && ContentLengthOk(input.content.value)
    && input.category.Some? && input.category.value != "" && IsMongoId(input.category.value)
  }

  /** The update rules as a condition on the body: absent fields pass. */
  predicate UpdatePostValid(input: PostInput) {
    && (input.title.Some? ==> TitleLengthOk(input.title.value))
    && (input.content.Some? ==> ContentLengthOk(input.content.value))
    && (input.category.Some? ==> IsMongoId(input.category.value))
  }

  /** The rank of a field in the chain order. */
  function FieldRank(path: string): nat {
    if path == "title" then 0 else if path == "content" then 1 else 2
  }

  predicate InChainOrder(errs: seq<FieldError>) {
    forall i, j :: 0 <= i < j < |errs| ==> FieldRank(errs[i].path) <= FieldRank(errs[j].path)
  }

  /** validationResult after createPostValidation's chains. */
  function CreatePostErrors(input: PostInput): (errs: seq<FieldError>)
    ensures errs == [] <==> CreatePostValid(input)
    ensures InChainOrder(errs)
    ensures forall e :: e in errs ==> e.path in {"title", "content", "category"}
  {
    var title := input.title.GetOr("");
    var content := input.content.GetOr("");
    var category := input.category.GetOr("");
    var titleErrs := Check("title", title != "", TITLE_REQUIRED)
                     + Check("title", TitleLengthOk(title), TITLE_LENGTH);
    var contentErrs := Check("content", content != "", CONTENT_REQUIRED)
                       + Check("content", ContentLengthOk(content), CONTENT_LENGTH);
    var categoryErrs := Check("category", category != "", CATEGORY_REQUIRED)
                        + Check("category", IsMongoId(category), CATEGORY_FORMAT);
    titleErrs + contentErrs + categoryErrs
  }

  /** validationResult after updatePostValidation's chains. */
  function UpdatePostErrors(input: PostInput): (errs: seq<FieldError>)
    ensures errs == [] <==> UpdatePostValid(input)
    ensures InChainOrder(errs)
    ensures forall e :: e in errs ==> e.path in {"title", "content", "category"}
    ensures forall e :: e in errs ==> e.msg in {TITLE_LENGTH, CONTENT_LENGTH, CATEGORY_FORMAT}
  {
    var titleErrs := if input.title.None? then []
                     else Check("title", TitleLengthOk(input.title.value), TITLE_LENGTH);
    var contentErrs := if input.content.None? then []
                       else Check("content", ContentLengthOk(input.content.value), CONTENT_LENGTH);
    var categoryErrs := if input.category.None? then []
                        else Check("category", IsMongoId(input.category.value), CATEGORY_FORMAT);
    titleErrs + contentErrs + categoryErrs
  }

  /** A body the create rules accept is one the update rules accept. */
  lemma CreateRulesImplyUpdateRules(input: PostInput)
    requires CreatePostErrors(input) == []
    ensures UpdatePostErrors(input) == []
  {
  }

  /** On a body with every field present, each update error is also a create
      error: update applies the same bounds, only without notEmpty. */
  lemma UpdateErrorsAreCreateErrors(input: PostInput)
    requires input.title.Some? && input.content.Some? && input.category.Some?
    ensures forall e :: e in UpdatePostErrors(input) ==> e in CreatePostErrors(input)
  {
  }

  /** An absent field reads as '' to a create chain, so both its validators
      report: a missing title, for instance, gives two errors. */
  lemma MissingTitleReportsTwice(input: PostInput)
    requires input.title.None?
    ensures CreatePostErrors(input)[..2] == [FieldError("title", TITLE_REQUIRED), FieldError("title", TITLE_LENGTH)]
  {
  }

  /** handleValidationErrors: 400 { errors } when any check failed,
      otherwise next() with the request untouched. */
  function HandleValidationErrors<T>(errs: seq<FieldError>): (step: Step<T>)
    ensures step.Next? <==> errs == []
    ensures step.Respond? ==> step.reply.status == 400 && step.reply.body.Errors? && step.reply.body.errors == errs
  {
    if errs != [] then Respond(Reply(400, Errors(errs))) else Next
  }
}
