/** The four collections the server keeps in MongoDB, as one object whose
    fields the handlers reassign. Each collection is held in natural
    (insertion) order, which is the order find({}) returns and the order in
    which findOne and findById meet their first match. */
module Store {
  import opened Base
  import opened Query
  import opened PostModel
  import opened CommentModel
  import opened CategoryModel
  import opened UserModel

  /** No two elements share a key: a unique index. */
  predicate UniqueBy<T, K(==)>(s: seq<T>, key: T -> K) {
    forall i, j :: 0 <= i < j < |s| ==> key(s[i]) != key(s[j])
  }

  function PostId(p: Post): Id { p.id }
  function CommentId(c: Comment): Id { c.id }
  function CategoryId(c: Category): Id { c.id }
  function CategoryName(c: Category): string { c.name }
  function UserId(u: User): Id { u.id }
  function Username(u: User): string { u.username }
  function UserEmail(u: User): string { u.email }

  /** Post.findById(id): the position of the post with that id. */
  function FindPost(posts: seq<Post>, id: Id): (r: Option<nat>)
    ensures r.Some? ==> r.value < |posts| && posts[r.value].id == id
    ensures r.None? <==> forall k :: 0 <= k < |posts| ==> posts[k].id != id
    ensures r.Some? ==> forall k :: 0 <= k < r.value ==> posts[k].id != id
  {
    FirstIndex(posts, (p: Post) => p.id == id)
  }

  /** User.findById(id). */
  function FindUser(users: seq<User>, id: Id): (r: Option<nat>)
    ensures r.Some? ==> r.value < |users| && users[r.value].id == id
    ensures r.None? <==> forall k :: 0 <= k < |users| ==> users[k].id != id
  {
    FirstIndex(users, (u: User) => u.id == id)
  }

  /** User.findOne({ email }); an absent email matches no stored user, as
      every stored user has one. */
  function FindUserByEmail(users: seq<User>, email: Option<string>): (r: Option<nat>)
    ensures r.Some? ==> r.value < |users| && email == Some(users[r.value].email)
    ensures r.None? <==> forall k :: 0 <= k < |users| ==> email != Some(users[k].email)
  {
    FirstIndex(users, (u: User) => email == Some(u.email))
  }

  /** User.findOne({ $or: [{ email }, { username }] }). */
  function FindUserByEmailOrUsername(users: seq<User>, email: Option<string>, username: Option<string>): (r: Option<nat>)
    ensures r.Some? ==> r.value < |users| && (email == Some(users[r.value].email) || username == Some(users[r.value].username))
    ensures r.None? <==> forall k :: 0 <= k < |users| ==> email != Some(users[k].email) && username != Some(users[k].username)
  {
    FirstIndex(users, (u: User) => email == Some(u.email) || username == Some(u.username))
  }

  /** The posts collection's invariant: unique ids, every post as the
      schema leaves it. */
  predicate PostsValid(posts: seq<Post>) {
    UniqueBy(posts, PostId) && forall i :: 0 <= i < |posts| ==> PostConforms(posts[i])
  }

  predicate CommentsValid(comments: seq<Comment>) {
    UniqueBy(comments, CommentId) && forall i :: 0 <= i < |comments| ==> CommentConforms(comments[i])
  }

  /** Unique ids and unique names (the index on `name`). */
  predicate CategoriesValid(categories: seq<Category>) {
    && UniqueBy(categories, CategoryId) && UniqueBy(categories, CategoryName)
    && forall i :: 0 <= i < |categories| ==> CategoryConforms(categories[i])
  }

  /** Unique ids, usernames and emails (the indexes `unique: true` builds). */
  predicate UsersValid(users: seq<User>) {
    && UniqueBy(users, UserId) && UniqueBy(users, Username) && UniqueBy(users, UserEmail)
    && forall i :: 0 <= i < |users| ==> UserConforms(users[i])
  }

  class Db {
    var users: seq<User>
    var posts: seq<Post>
    var comments: seq<Comment>
    var categories: seq<Category>

    /** Every collection keeps its unique indexes and holds only documents
        that passed their schema. */
    ghost predicate Valid()
      reads this
    {
      PostsValid(posts) && CommentsValid(comments) && CategoriesValid(categories) && UsersValid(users)
    }

    /** An empty database. */
    constructor()
      ensures users == [] && posts == [] && comments == [] && categories == []
      ensures Valid()
    {
      users := [];
      posts := [];
      comments := [];
      categories := [];
    }
  }
}
