/**
 * The Like document: a field list with every reference optional. A like is
 * on a blog or on a comment, by a user; a blog like also records the blog's
 * author so that an author's likes can be counted.
 */
module LikeModel {
  import opened Wrappers
  import opened Collections

  datatype Like = Like(id: Id, blog: Option<Id>, comment: Option<Id>, likedBy: Option<Id>, blogAuthor: Option<Id>)

  /** What a like is on. */
  datatype Target = OnBlog(blog: Id) | OnComment(comment: Id)

  /** The handlers' `$match: { blog | comment: <target>, likedBy: <user> }`. */
  predicate Matches(l: Like, target: Target, user: Id) {
    l.likedBy == Some(user)
    && match target
       case OnBlog(b) => l.blog == Some(b)
       case OnComment(c) => l.comment == Some(c)
  }

  /** The two shapes the like handlers create: a blog like with its author, or a bare comment like. */
  predicate WellFormed(l: Like) {
    l.likedBy.Some?
    && ((l.blog.Some? && l.comment.None? && l.blogAuthor.Some?)
        || (l.blog.None? && l.comment.Some? && l.blogAuthor.None?))
  }

  /** At most one like per (target, user) pair. */
  ghost predicate AtMostOnePerPair(likes: map<Id, Like>) {
    forall i, j, t, u :: i in likes && j in likes && Matches(likes[i], t, u) && Matches(likes[j], t, u) ==> i == j
  }

  predicate Liked(likes: map<Id, Like>, target: Target, user: Id) {
    exists id :: id in likes && Matches(likes[id], target, user)
  }

  /** The likes a `$match: { blogAuthor: <author> }` selects. */
  function AuthorLikeIds(likes: map<Id, Like>, author: Id): set<Id> {
    set id | id in likes && likes[id].blogAuthor == Some(author)
  }

  /** A well-formed like is on exactly one (target, user) pair. */
  lemma WellFormedMatchesOnePair(l: Like, t1: Target, u1: Id, t2: Target, u2: Id)
    requires WellFormed(l) && Matches(l, t1, u1) && Matches(l, t2, u2)
    ensures t1 == t2 && u1 == u2
  {
  }
}
