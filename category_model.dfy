/** server/models/Category.js: a category document and its schema. */
module CategoryModel {
  import opened Base

  const NAME_MAX_LENGTH: nat := 50

  datatype Category = Category(
    id: Id,
    name: string,     // unique across categories
    createdAt: nat,   // defaults to the creation time; `timestamps: true` also sets it
    updatedAt: nat)   // maintained by `timestamps: true`

  /** new Category({ name }) at time `now`: the name setter trims and both
      timestamps are `now`. */
  function NewCategory(id: Id, name: string, now: nat): (c: Category)
    ensures c.createdAt == now && c.updatedAt == now
  {
    Category(id, Trim(name), now, now)
  }

  /** The ValidationError messages for saving a category named `name`
      (already trimmed): required, then maxlength 50. */
  function CategorySchemaMessages(name: string): (ms: seq<string>)
    ensures |ms| <= 1
    ensures ms == [] <==> name != "" && Utf16Length(name) <= NAME_MAX_LENGTH
  {
    if name == "" then ["Category name is required"]
    else if Utf16Length(name) > NAME_MAX_LENGTH then ["Category name cannot be more than 50 characters"]
    else []
  }

  /** What a stored category satisfies. */
  predicate CategoryConforms(c: Category) {
    Trim(c.name) == c.name && c.name != "" && Utf16Length(c.name) <= NAME_MAX_LENGTH
  }

  lemma NewCategoryConforms(id: Id, name: string, now: nat)
    requires CategorySchemaMessages(NewCategory(id, name, now).name) == []
    ensures CategoryConforms(NewCategory(id, name, now))
  {
    TrimIdempotent(name);
  }
}
