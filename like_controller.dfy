/**
 * Likes: the blog and comment like toggles, and the count of the likes
 * recorded against an author's blogs.
 */
module LikeController {
  import opened Wrappers
  import opened Collections
  import opened ApiErrors
  import opened BlogModel
  import opened CommentModel
  import opened LikeModel
  import opened Store

  /** The like a toggle creates: on the target, by the user, with the given blog author. */
  function NewLike(id: Id, target: Target, user: Id, blogAuthor: Option<Id>): (l: Like)
    ensures l.id == id && Matches(l, target, user) && l.blogAuthor == blogAuthor
    ensures forall t, u :: Matches(l, t, u) ==> t == target && u == user
  {
    match target
    case OnBlog(b) => Like(id, Some(b), None, Some(user), blogAuthor)
    case OnComment(c) => Like(id, None, Some(c), Some(user), blogAuthor)
  }

  /** `liked[0]`: the first like on the pair in natural order. */
  function ExistingLike(likes: map<Id, Like>, bound: nat, target: Target, user: Id): (r: Option<Id>)
    requires AllBelow(likes, bound)
    ensures r.Some? ==> r.value in likes && Matches(likes[r.value], target, user)
    ensures r.None? <==> !Liked(likes, target, user)
  {
    FindFirst(likes, (l: Like) => Matches(l, target, user), bound)
  }

  /**
   * The like collection after a toggle on (target, user): an existing like on
   * the pair is deleted; otherwise a new like is stored under the next id.
   */
  function Toggled(likes: map<Id, Like>, bound: nat, target: Target, user: Id, blogAuthor: Option<Id>): (r: map<Id, Like>)
    requires AllBelow(likes, bound)
    requires AtMostOnePerPair(likes)
    ensures Liked(r, target, user) <==> !Liked(likes, target, user)
    ensures forall id :: id in likes && !Matches(likes[id], target, user) ==> id in r && r[id] == likes[id]
    ensures forall id :: id in r ==>
      (id in likes && r[id] == likes[id]) || (id == bound && r[id] == NewLike(bound, target, user, blogAuthor))
  {
    match ExistingLike(likes, bound, target, user)
    case Some(id) =>
      var r := likes - {id};
      assert !Liked(r, target, user);
      r
    case None =>
      var r := likes[bound := NewLike(bound, target, user, blogAuthor)];
      assert Matches(r[bound], target, user);
      r
  }

  /** A toggle keeps at most one like per (target, user) pair. */
  lemma ToggledKeepsOnePerPair(likes: map<Id, Like>, bound: nat, target: Target, user: Id, blogAuthor: Option<Id>)
    requires AllBelow(likes, bound)
    requires AtMostOnePerPair(likes)
    ensures AtMostOnePerPair(Toggled(likes, bound, target, user, blogAuthor))
  {
    var r := Toggled(likes, bound, target, user, blogAuthor);
    if !Liked(likes, target, user) {
      assert bound !in likes;
      assert forall k :: k in likes ==> !Matches(likes[k], target, user);
      assert forall t, u :: Matches(r[bound], t, u) ==> t == target && u == user;
    }
  }

  /** Liking then unliking restores the like collection exactly. */
  lemma {:induction false} ToggleTwiceAfterCreate(likes: map<Id, Like>, bound: nat, target: Target, user: Id, blogAuthor: Option<Id>)
    requires AllBelow(likes, bound)
    requires AtMostOnePerPair(likes)
    requires !Liked(likes, target, user)
    ensures AllBelow(Toggled(likes, bound, target, user, blogAuthor), bound + 1)
    ensures AtMostOnePerPair(Toggled(likes, bound, target, user, blogAuthor))
    ensures Toggled(Toggled(likes, bound, target, user, blogAuthor), bound + 1, target, user, blogAuthor) == likes
  {
    var once := Toggled(likes, bound, target, user, blogAuthor);
    ToggledKeepsOnePerPair(likes, bound, target, user, blogAuthor);
    assert once == likes[bound := NewLike(bound, target, user, blogAuthor)];
    var found := ExistingLike(once, bound + 1, target, user);
    assert found == Some(bound) by {
      assert Matches(once[bound], target, user);
    }
    assert once - {bound} == likes;
  }

  /**
   * Unliking then liking again restores which pairs are liked: the old like
   * is replaced by a new one under the next id, every other like is kept.
   */
  lemma {:induction false} ToggleTwiceAfterRemove(likes: map<Id, Like>, bound: nat, target: Target, user: Id, blogAuthor: Option<Id>)
    requires AllBelow(likes, bound)
    requires AtMostOnePerPair(likes)
    requires Liked(likes, target, user)
    requires forall k :: k in likes ==> WellFormed(likes[k])
    ensures AllBelow(Toggled(likes, bound, target, user, blogAuthor), bound)
    ensures AtMostOnePerPair(Toggled(likes, bound, target, user, blogAuthor))
    ensures var twice := Toggled(Toggled(likes, bound, target, user, blogAuthor), bound, target, user, blogAuthor);
      twice == (likes - {ExistingLike(likes, bound, target, user).value})[bound := NewLike(bound, target, user, blogAuthor)]
      && forall t, u :: Liked(twice, t, u) <==> Liked(likes, t, u)
  {
    var id := ExistingLike(likes, bound, target, user).value;
    var once := Toggled(likes, bound, target, user, blogAuthor);
    ToggledKeepsOnePerPair(likes, bound, target, user, blogAuthor);
    assert once == likes - {id};
    var twice := Toggled(once, bound, target, user, blogAuthor);
    assert twice == once[bound := NewLike(bound, target, user, blogAuthor)];
    forall t, u ensures Liked(twice, t, u) <==> Liked(likes, t, u) {
      if Liked(likes, t, u) {
        var k :| k in likes && Matches(likes[k], t, u);
        if k == id {
          WellFormedMatchesOnePair(likes[id], t, u, target, user);
          assert Matches(twice[bound], t, u);
        } else {
          assert twice[k] == likes[k];
        }
      }
      if Liked(twice, t, u) {
        var k :| k in twice && Matches(twice[k], t, u);
        if k == bound {
          assert Matches(likes[id], t, u);
        } else {
          assert likes[k] == twice[k];
        }
      }
    }
  }

  function AuthorLikeCount(likes: map<Id, Like>, author: Id): nat {
    |AuthorLikeIds(likes, author)|
  }

  /** Creating a like adds one to the count of the author it records and to no other. */
  lemma ToggleCreateCount(likes: map<Id, Like>, bound: nat, target: Target, user: Id, blogAuthor: Option<Id>, author: Id)
    requires AllBelow(likes, bound)
    requires AtMostOnePerPair(likes)
    requires !Liked(likes, target, user)
    ensures AuthorLikeCount(Toggled(likes, bound, target, user, blogAuthor), author)
      == AuthorLikeCount(likes, author) + (if blogAuthor == Some(author) then 1 else 0)
  {
    var r := Toggled(likes, bound, target, user, blogAuthor);
    assert r == likes[bound := NewLike(bound, target, user, blogAuthor)];
    assert bound !in likes;
    if blogAuthor == Some(author) {
      assert AuthorLikeIds(r, author) == AuthorLikeIds(likes, author) + {bound};
    } else {
      assert AuthorLikeIds(r, author) == AuthorLikeIds(likes, author);
    }
  }

  /** Deleting a like takes one from the count of the author it recorded and from no other. */
  lemma ToggleRemoveCount(likes: map<Id, Like>, bound: nat, target: Target, user: Id, blogAuthor: Option<Id>, author: Id)
    requires AllBelow(likes, bound)
    requires AtMostOnePerPair(likes)
    requires Liked(likes, target, user)
    ensures var removed := likes[ExistingLike(likes, bound, target, user).value];
      AuthorLikeCount(Toggled(likes, bound, target, user, blogAuthor), author)
      == AuthorLikeCount(likes, author) - (if removed.blogAuthor == Some(author) then 1 else 0)
  {
    var id := ExistingLike(likes, bound, target, user).value;
    var r := Toggled(likes, bound, target, user, blogAuthor);
    assert r == likes - {id};
    if likes[id].blogAuthor == Some(author) {
      assert AuthorLikeIds(r, author) == AuthorLikeIds(likes, author) - {id};
    } else {
      assert AuthorLikeIds(r, author) == AuthorLikeIds(likes, author);
    }
  }

  /** A comment-like toggle on well-formed likes changes no author's count. */
  lemma CommentToggleKeepsCounts(likes: map<Id, Like>, bound: nat, comment: Id, user: Id, author: Id)
    requires AllBelow(likes, bound)
    requires AtMostOnePerPair(likes)
    requires forall id :: id in likes ==> WellFormed(likes[id])
    ensures AuthorLikeCount(Toggled(likes, bound, OnComment(comment), user, None), author) == AuthorLikeCount(likes, author)
  {
    if Liked(likes, OnComment(comment), user) {
      ToggleRemoveCount(likes, bound, OnComment(comment), user, None, author);
    } else {
      ToggleCreateCount(likes, bound, OnComment(comment), user, None, author);
    }
  }

  /**
   * totalAuthorLikes: the `$count` of the likes recording the caller as blog
   * author. An empty match yields no count document, so `totalLikes[0]` is
   * undefined (None) rather than zero.
   */
  function TotalAuthorLikes(likes: map<Id, Like>, caller: Id): (r: Option<nat>)
    ensures r.None? <==> forall id :: id in likes ==> likes[id].blogAuthor != Some(caller)
    ensures r.Some? ==> r.value == AuthorLikeCount(likes, caller) && r.value > 0
  {
    var n := AuthorLikeCount(likes, caller);
    if n == 0 then
      assert AuthorLikeIds(likes, caller) == {};
      assert forall id :: id in likes ==> likes[id].blogAuthor != Some(caller) by {
        forall id | id in likes ensures likes[id].blogAuthor != Some(caller) {
          assert id !in AuthorLikeIds(likes, caller);
        }
      }
      None
    else
      assert exists id :: id in AuthorLikeIds(likes, caller);
      Some(n)
  }

  /** What a toggle did: the deleted like, or the created one. */
  datatype LikeChange = Removed(like: Like) | Created(like: Like)

  /** The toggle on the store, shared by both handlers once the target is known. */
  method Toggle(store: ContentStore, target: Target, user: Id, blogAuthor: Option<Id>) returns (change: LikeChange)
    requires store.Valid()
    requires WellFormed(NewLike(store.nextId, target, user, blogAuthor))
    requires target.OnBlog? ==> target.blog in store.blogs && blogAuthor == Some(store.blogs[target.blog].author)
    modifies store
    ensures store.Valid()
    ensures store.likes == Toggled(old(store.likes), old(store.nextId), target, user, blogAuthor)
    ensures change.Created? <==> !Liked(old(store.likes), target, user)
    ensures change.Created? ==> change.like == NewLike(old(store.nextId), target, user, blogAuthor) && store.nextId == old(store.nextId) + 1
    ensures change.Removed? ==>
      store.nextId == old(store.nextId)
      && change.like == old(store.likes)[ExistingLike(old(store.likes), old(store.nextId), target, user).value]
    ensures store.users == old(store.users) && store.blogs == old(store.blogs)
    ensures store.comments == old(store.comments) && store.categories == old(store.categories)
  {
    ToggledKeepsOnePerPair(store.likes, store.nextId, target, user, blogAuthor);
    var found := ExistingLike(store.likes, store.nextId, target, user);
    if found.Some? {
      change := Removed(store.likes[found.value]);
      store.likes := store.likes - {found.value};
    } else {
      var like := NewLike(store.nextId, target, user, blogAuthor);
      change := Created(like);
      store.likes := store.likes[store.nextId := like];
      store.nextId := store.nextId + 1;
    }
  }

  /**
   * likeBlog: toggles the caller's like on the blog with the permalink; the
   * like created records the blog's author. An unknown permalink reads
   * `_id` of null.
   */
  method LikeBlog(store: ContentStore, caller: Id, permalink: string) returns (o: Outcome<LikeChange>)
    requires store.Valid()
    modifies store
    ensures store.Valid()
    ensures store.users == old(store.users) && store.blogs == old(store.blogs)
    ensures store.comments == old(store.comments) && store.categories == old(store.categories)
    ensures match BlogByPermalink(old(store.blogs), permalink, old(store.nextId))
      case None =>
        o == Thrown(TypeError) && store.likes == old(store.likes) && store.nextId == old(store.nextId)
      case Some(b) =>
        o.Ok?
        && store.likes == Toggled(old(store.likes), old(store.nextId), OnBlog(b), caller, Some(old(store.blogs)[b].author))
        && (o.value.Created? <==> !Liked(old(store.likes), OnBlog(b), caller))
        && (o.value.Created? ==> o.value.like.blogAuthor == Some(old(store.blogs)[b].author) && o.value.like.likedBy == Some(caller))
        && forall a :: AuthorLikeCount(store.likes, a) ==
             AuthorLikeCount(old(store.likes), a)
             + (if a != old(store.blogs)[b].author then 0 else if o.value.Created? then 1 else -1)
  {
    var found := BlogByPermalink(store.blogs, permalink, store.nextId);
    if found.None? {
      return Thrown(TypeError);
    }
    var b := found.value;
    var author := store.blogs[b].author;
    var liked := Liked(store.likes, OnBlog(b), caller);
    forall a ensures AuthorLikeCount(Toggled(store.likes, store.nextId, OnBlog(b), caller, Some(author)), a)
      == AuthorLikeCount(store.likes, a) + (if a != author then 0 else if !liked then 1 else -1)
    {
      if liked {
        ToggleRemoveCount(store.likes, store.nextId, OnBlog(b), caller, Some(author), a);
      } else {
        ToggleCreateCount(store.likes, store.nextId, OnBlog(b), caller, Some(author), a);
      }
    }
    var change := Toggle(store, OnBlog(b), caller, Some(store.blogs[b].author));
    return Ok(change);
  }

  /**
   * likeComment: the same toggle on the caller's like of a comment; the like
   * created records no blog author. An unknown comment reads `_id` of null.
   */
  method LikeComment(store: ContentStore, caller: Id, commentId: Id) returns (o: Outcome<LikeChange>)
    requires store.Valid()
    modifies store
    ensures store.Valid()
    ensures store.users == old(store.users) && store.blogs == old(store.blogs)
    ensures store.comments == old(store.comments) && store.categories == old(store.categories)
    ensures commentId !in old(store.comments) ==>
      o == Thrown(TypeError) && store.likes == old(store.likes) && store.nextId == old(store.nextId)
    ensures commentId in old(store.comments) ==>
      o.Ok?
      && store.likes == Toggled(old(store.likes), old(store.nextId), OnComment(commentId), caller, None)
      && (o.value.Created? <==> !Liked(old(store.likes), OnComment(commentId), caller))
    ensures forall a :: AuthorLikeCount(store.likes, a) == AuthorLikeCount(old(store.likes), a)
  {
    if commentId !in store.comments {
      return Thrown(TypeError);
    }
    forall a ensures AuthorLikeCount(Toggled(store.likes, store.nextId, OnComment(commentId), caller, None), a) == AuthorLikeCount(store.likes, a) {
      CommentToggleKeepsCounts(store.likes, store.nextId, commentId, caller, a);
    }
    var change := Toggle(store, OnComment(commentId), caller, None);
    return Ok(change);
  }
}
