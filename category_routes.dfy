/** server/routes/categoryRoutes.js: listing and creating categories. */
module CategoryRoutes {
  import opened Base
  import opened Http
  import opened Collaborators
  import opened CategoryModel
  import opened Store
  import opened ErrorHandler

  const NAME_REQUIRED: string := "Category name is required"
  const NAME_EXISTS: string := "Category name already exists"

  /** What the POST handler answers and the collection it leaves. */
  datatype CategoryOutcome = CategoryOutcome(reply: Reply<Category>, categories: seq<Category>)

  /** GET /api/categories: 200 with the categories as stored, in stored
      order. */
  method ListCategories(db: Db) returns (r: Reply<seq<Category>>)
    ensures r.status == 200 && r.body == Data(db.categories)
  {
    r := Reply(200, Data(db.categories));
  }

  /** A save that hits a unique index (the name, or the _id) fails with
      code 11000. */
  predicate SaveCollides(categories: seq<Category>, c: Category) {
    exists k :: 0 <= k < |categories| && (categories[k].name == c.name || categories[k].id == c.id)
  }

  /** POST /api/categories: an absent or empty name is refused up front;
      otherwise new Category({ name }).save(), whose trimmed name must pass
      the schema (a ValidationError goes to the error handler) and must be
      new (code 11000 gives 400 'Category name already exists'). */
  function CreateCategoryOutcome(env: Env, categories: seq<Category>, name: Option<string>,
                                 freshId: Id, now: nat): (o: CategoryOutcome)
    ensures o.categories == categories || o.reply.status == 201
    ensures o.reply.status == 201 || o.reply.status == 400
    ensures name.None? || name == Some("") ==> o.reply == Reply(400, Message(NAME_REQUIRED))
    ensures (&& name.Some? && CategorySchemaMessages(Trim(name.value)) == []
             && exists k :: 0 <= k < |categories| && categories[k].name == Trim(name.value)) ==>
      o.reply == Reply(400, Message(NAME_EXISTS))
  {
    if name.None? || name.value == "" then CategoryOutcome(Reply(400, Message(NAME_REQUIRED)), categories)
    else
      var c := NewCategory(freshId, name.value, now);
      var messages := CategorySchemaMessages(c.name);
      if messages != [] then
        var r: Reply<Category> := HandleError(ValidationError(messages), 200, env.production);
        CategoryOutcome(r, categories)
      else if SaveCollides(categories, c) then CategoryOutcome(Reply(400, Message(NAME_EXISTS)), categories)
      else CategoryOutcome(Reply(201, Data(c)), categories + [c])
  }

  /** A successful POST saves exactly one category, the given name trimmed,
      and answers with it. */
  lemma CreateCategoryAddsOne(env: Env, categories: seq<Category>, name: Option<string>, freshId: Id, now: nat)
    requires CreateCategoryOutcome(env, categories, name, freshId, now).reply.status == 201
    ensures var o := CreateCategoryOutcome(env, categories, name, freshId, now);
      && name.Some?
      && o.reply.body.Data?
      && o.categories == categories + [o.reply.body.value]
      && o.reply.body.value.name == Trim(name.value)
      && o.reply.body.value.id == freshId
      && forall k :: 0 <= k < |categories| ==> categories[k].name != o.reply.body.value.name
  {
  }

  /** A name whose trimmed value the schema accepts and that neither the
      name index nor the _id index holds yet is answered 201, and exactly
      the new category is appended. */
  lemma NewNameSucceeds(env: Env, categories: seq<Category>, name: string, freshId: Id, now: nat)
    requires Trim(name) != "" && Utf16Length(Trim(name)) <= NAME_MAX_LENGTH
    requires forall k :: 0 <= k < |categories| ==> categories[k].name != Trim(name) && categories[k].id != freshId
    ensures var c := NewCategory(freshId, name, now);
      CreateCategoryOutcome(env, categories, Some(name), freshId, now) == CategoryOutcome(Reply(201, Data(c)), categories + [c])
  {
  }

  /** A name that is only white space passes the handler's own check but
      not the schema: the error handler answers 400 with the schema's
      message. */
  lemma BlankNameFailsSchema(env: Env, categories: seq<Category>, name: string, freshId: Id, now: nat)
    requires name != "" && Trim(name) == ""
    ensures CreateCategoryOutcome(env, categories, Some(name), freshId, now).reply.status == 400
    ensures CreateCategoryOutcome(env, categories, Some(name), freshId, now).reply.body.message == "Category name is required"
  {
    var o := CreateCategoryOutcome(env, categories, Some(name), freshId, now);
    assert CategorySchemaMessages(Trim(name)) == ["Category name is required"];
  }

  /** Creating keeps the collection's invariant. */
  lemma CreateCategoryPreservesValid(env: Env, categories: seq<Category>, name: Option<string>, freshId: Id, now: nat)
    requires CategoriesValid(categories)
    ensures CategoriesValid(CreateCategoryOutcome(env, categories, name, freshId, now).categories)
  {
    var o := CreateCategoryOutcome(env, categories, name, freshId, now);
    if o.categories != categories {
      var c := NewCategory(freshId, name.value, now);
      NewCategoryConforms(freshId, name.value, now);
      assert o.categories == categories + [c];
      assert forall k :: 0 <= k < |categories| ==> categories[k].id != c.id && categories[k].name != c.name;
    }
  }

  /** POST /api/categories on the database. */
  method CreateCategory(env: Env, db: Db, name: Option<string>, freshId: Id, now: nat) returns (r: Reply<Category>)
    requires db.Valid()
    modifies db`categories
    ensures var o := CreateCategoryOutcome(env, old(db.categories), name, freshId, now);
      r == o.reply && db.categories == o.categories
    ensures db.Valid()
  {
    if name.None? || name.value == "" {
      return Reply(400, Message(NAME_REQUIRED));
    }
    var c := NewCategory(freshId, name.value, now);
    var messages := CategorySchemaMessages(c.name);
    if messages != [] {
      return HandleError(ValidationError(messages), 200, env.production);
    }
    if SaveCollides(db.categories, c) {
      return Reply(400, Message(NAME_EXISTS));
    }
    CreateCategoryPreservesValid(env, db.categories, name, freshId, now);
    db.categories := db.categories + [c];
    r := Reply(201, Data(c));
  }
}
