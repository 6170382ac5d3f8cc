/**
 * The content store: the five collections the handlers read and write, and
 * the allocator of document ids. A document's id is its key, ids are handed
 * out in increasing order, and every unique index of the schemas holds.
 */
module Store {
  import opened Wrappers
  import opened Collections
  import opened BlogModel
  import opened CommentModel
  import opened CategoryModel
  import opened UserModel
  import opened LikeModel

  class ContentStore {
    var users: map<Id, User>
    var blogs: map<Id, Blog>
    var comments: map<Id, Comment>
    var categories: map<Id, Category>
    var likes: map<Id, Like>
    /** The next id to hand out; every stored id is below it. */
    var nextId: nat

    ghost predicate Valid()
      reads this
    {
      AllBelow(users, nextId) && AllBelow(blogs, nextId) && AllBelow(comments, nextId)
      && AllBelow(categories, nextId) && AllBelow(likes, nextId)
      && (forall id :: id in users ==> users[id].id == id)
      && (forall id :: id in blogs ==> blogs[id].id == id)
      && (forall id :: id in comments ==> comments[id].id == id)
      && (forall id :: id in categories ==> categories[id].id == id)
      && (forall id :: id in likes ==> likes[id].id == id && WellFormed(likes[id]))
      && UniquePermalinks(blogs)
      && UniqueUserKeys(users)
      && UniqueCategoryKeys(categories)
      && AtMostOnePerPair(likes)
      && BlogLikesRecordAuthor()
    }

    /**
     * A blog like refers to a blog that was allocated before it, and records
     * that blog's author while the blog exists (no handler changes an author).
     */
    ghost predicate BlogLikesRecordAuthor()
      reads this
    {
      forall id :: id in likes && likes[id].blog.Some? ==>
        likes[id].blog.value < nextId
        && (likes[id].blog.value in blogs ==> likes[id].blogAuthor == Some(blogs[likes[id].blog.value].author))
    }

    constructor ()
      ensures Valid()
      ensures users == map[] && blogs == map[] && comments == map[] && categories == map[] && likes == map[]
      ensures nextId == 0
    {
      users := map[];
      blogs := map[];
      comments := map[];
      categories := map[];
      likes := map[];
      nextId := 0;
    }
  }
}
