/**
 * The comment handlers: a reader comments on a blog, edits or deletes a
 * comment, lists comments, and an admin decides a comment's status.
 * Listings keep only comments whose commenter is still a stored user, as the
 * user lookup that follows each match drops the others.
 */
module CommentController {
  import opened Wrappers
  import opened Js
  import opened Collections
  import opened ApiErrors
  import opened Moderation
  import opened BlogModel
  import opened CommentModel
  import opened UserModel
  import opened Store

  /**
   * blogComment: the content must have a non-blank character (400) and the
   * permalink must name a blog (400); the comment records that blog and the
   * caller and starts pending.
   */
  function CommentCreation(blogs: map<Id, Blog>, bound: nat, id: Id, caller: Id, permalink: string,
                           content: Option<string>): (r: Outcome<Comment>)
    requires AllBelow(blogs, bound)
    ensures MissingOrBlank(content) ==> r == Reject(400, "Comment content cannot be empty.")
    ensures !MissingOrBlank(content) && !HasPermalink(blogs, permalink) ==>
      r == Reject(400, "Blog not found. Please verify that the provided permalink is correct.")
    ensures r.Ok? <==> !MissingOrBlank(content) && HasPermalink(blogs, permalink)
    ensures r.Ok? ==>
      r.value.id == id && r.value.blog in blogs && blogs[r.value.blog].permalink == permalink
      && r.value.commentBy == Some(caller) && r.value.content == content.value && r.value.status == Pending
  {
    if MissingOrBlank(content) then
      Reject(400, "Comment content cannot be empty.")
    else
      match BlogByPermalink(blogs, permalink, bound)
      case None => Reject(400, "Blog not found. Please verify that the provided permalink is correct.")
      case Some(blogId) =>
        assert content.value != "" by { assert !IsBlank(content.value); }
        Ok(NewComment(id, blogId, Some(caller), content.value).value)
  }

  method BlogComment(store: ContentStore, caller: Id, permalink: string, content: Option<string>) returns (o: Outcome<Comment>)
    requires store.Valid()
    modifies store
    ensures store.Valid()
    ensures o == CommentCreation(old(store.blogs), old(store.nextId), old(store.nextId), caller, permalink, content)
    ensures o.Ok? ==> store.comments == old(store.comments)[old(store.nextId) := o.value] && store.nextId == old(store.nextId) + 1
    ensures !o.Ok? ==> store.comments == old(store.comments) && store.nextId == old(store.nextId)
    ensures store.users == old(store.users) && store.blogs == old(store.blogs)
    ensures store.categories == old(store.categories) && store.likes == old(store.likes)
  {
    var id := store.nextId;
    o := CommentCreation(store.blogs, id, id, caller, permalink, content);
    if o.Ok? {
      store.comments := store.comments[id := o.value];
      store.nextId := store.nextId + 1;
    }
  }

  /**
   * updateComment: the same content check, then the comment must exist
   * (400); only its content changes, so an approved comment stays approved.
   */
  function CommentEdit(comments: map<Id, Comment>, commentId: Id, content: Option<string>): (r: Outcome<Comment>)
    ensures MissingOrBlank(content) ==> r == Reject(400, "Comment content cannot be empty.")
    ensures !MissingOrBlank(content) && commentId !in comments ==>
      r == Reject(400, "Comment not found. Please verify that the provided permalink is correct.")
    ensures r.Ok? <==> !MissingOrBlank(content) && commentId in comments
    ensures r.Ok? ==>
      r.value.content == content.value && r.value.status == comments[commentId].status
      && r.value.(content := comments[commentId].content) == comments[commentId]
  {
    if MissingOrBlank(content) then
      Reject(400, "Comment content cannot be empty.")
    else if commentId !in comments then
      Reject(400, "Comment not found. Please verify that the provided permalink is correct.")
    else
      Ok(WithContent(comments[commentId], content.value))
  }

  method UpdateComment(store: ContentStore, commentId: Id, content: Option<string>) returns (o: Outcome<Comment>)
    requires store.Valid()
    modifies store
    ensures store.Valid()
    ensures o == CommentEdit(old(store.comments), commentId, content)
    ensures o.Ok? ==> store.comments == old(store.comments)[commentId := o.value]
    ensures !o.Ok? ==> store.comments == old(store.comments)
    ensures store.users == old(store.users) && store.blogs == old(store.blogs) && store.nextId == old(store.nextId)
    ensures store.categories == old(store.categories) && store.likes == old(store.likes)
  {
    o := CommentEdit(store.comments, commentId, content);
    if o.Ok? {
      store.comments := store.comments[commentId := o.value];
    }
  }

  /** deleteComment: a missing comment is a 400; otherwise exactly that comment is removed and returned. */
  method DeleteComment(store: ContentStore, commentId: Id) returns (o: Outcome<Comment>)
    requires store.Valid()
    modifies store
    ensures store.Valid()
    ensures commentId !in old(store.comments) ==>
      o == Reject(400, "Comment not found. Please verify that the provided permalink is correct.")
      && store.comments == old(store.comments)
    ensures commentId in old(store.comments) ==>
      o == Ok(old(store.comments)[commentId]) && store.comments == old(store.comments) - {commentId}
    ensures store.users == old(store.users) && store.blogs == old(store.blogs) && store.nextId == old(store.nextId)
    ensures store.categories == old(store.categories) && store.likes == old(store.likes)
  {
    if commentId !in store.comments {
      return Reject(400, "Comment not found. Please verify that the provided permalink is correct.");
    }
    o := Ok(store.comments[commentId]);
    store.comments := store.comments - {commentId};
  }

  /** The user lookup and unwind after each match: the commenter must still be stored. */
  predicate ByStoredUser(c: Comment, users: map<Id, User>) {
    c.commentBy.Some? && c.commentBy.value in users
  }

  /** The approved comments of one blog whose commenter is stored. */
  function ApprovedCommentsOf(comments: map<Id, Comment>, users: map<Id, User>, bound: nat, blogId: Id): (r: seq<Comment>)
    requires AllBelow(comments, bound)
    ensures forall i :: 0 <= i < |r| ==>
      r[i] in comments.Values && r[i].blog == blogId && r[i].status == Approved && ByStoredUser(r[i], users)
    ensures forall id ::
      (id in comments && comments[id].blog == blogId && comments[id].status == Approved && ByStoredUser(comments[id], users))
      ==> comments[id] in r
  {
    Find(comments, (c: Comment) => c.blog == blogId && c.status == Approved && ByStoredUser(c, users), bound)
  }

  /**
   * getBlogComments: an unknown permalink is a 400; otherwise only the
   * blog's APPROVED comments are shown.
   */
  function BlogComments(blogs: map<Id, Blog>, comments: map<Id, Comment>, users: map<Id, User>, bound: nat,
                        permalink: string): (r: Outcome<seq<Comment>>)
    requires AllBelow(blogs, bound) && AllBelow(comments, bound)
    ensures !HasPermalink(blogs, permalink) <==>
      r == Reject(400, "Blog not found. Please verify that the provided permalink is correct.")
    ensures r.Ok? <==> HasPermalink(blogs, permalink)
    ensures r.Ok? ==> forall i :: 0 <= i < |r.value| ==>
      r.value[i].status == Approved && r.value[i].blog in blogs && blogs[r.value[i].blog].permalink == permalink
    ensures r.Ok? ==>
      BlogByPermalink(blogs, permalink, bound).Some?
      && r.value == ApprovedCommentsOf(comments, users, bound, BlogByPermalink(blogs, permalink, bound).value)
  {
    match BlogByPermalink(blogs, permalink, bound)
    case None => Reject(400, "Blog not found. Please verify that the provided permalink is correct.")
    case Some(blogId) => Ok(ApprovedCommentsOf(comments, users, bound, blogId))
  }

  /**
   * A new comment does not show on its blog: it is pending, so the blog's
   * listing is the same before and after it is added.
   */
  lemma NewCommentHidden(comments: map<Id, Comment>, users: map<Id, User>, bound: nat, c: Comment)
    requires AllBelow(comments, bound)
    requires c.status == Pending
    ensures ApprovedCommentsOf(comments[bound := c], users, bound + 1, c.blog) == ApprovedCommentsOf(comments, users, bound, c.blog)
  {
    FindIgnoresUnmatchedInsert(comments, (x: Comment) => x.blog == c.blog && x.status == Approved && ByStoredUser(x, users), bound, c);
  }

  /** getUserAllComments: the caller's comments, whatever their status. */
  function UserComments(comments: map<Id, Comment>, users: map<Id, User>, bound: nat, caller: Id): (r: seq<Comment>)
    requires AllBelow(comments, bound)
    ensures forall i :: 0 <= i < |r| ==> r[i] in comments.Values && r[i].commentBy == Some(caller) && caller in users
    ensures caller in users ==> forall id :: id in comments && comments[id].commentBy == Some(caller) ==> comments[id] in r
  {
    Find(comments, (c: Comment) => c.commentBy == Some(caller) && ByStoredUser(c, users), bound)
  }

  /** getUserPendingComments and getUserRejectedComments: the caller's comments with one status. */
  function UserCommentsWithStatus(comments: map<Id, Comment>, users: map<Id, User>, bound: nat, caller: Id, st: Status): (r: seq<Comment>)
    requires AllBelow(comments, bound)
    ensures forall i :: 0 <= i < |r| ==>
      r[i] in comments.Values && r[i].commentBy == Some(caller) && r[i].status == st && caller in users
    ensures caller in users ==>
      forall id :: (id in comments && comments[id].commentBy == Some(caller) && comments[id].status == st) ==> comments[id] in r
  {
    Find(comments, (c: Comment) => c.commentBy == Some(caller) && c.status == st && ByStoredUser(c, users), bound)
  }

  /**
   * getAllComments: a status outside the three names is a 400; otherwise
   * the caller's comments with that status.
   */
  function AllComments(comments: map<Id, Comment>, users: map<Id, User>, bound: nat, caller: Id,
                       status: Option<string>): (r: Outcome<seq<Comment>>)
    requires AllBelow(comments, bound)
    ensures ParseStatus(status).None? <==> r == InvalidStatus(status)
    ensures r.Ok? ==> forall i :: 0 <= i < |r.value| ==>
      r.value[i].commentBy == Some(caller) && status == Some(StatusName(r.value[i].status))
    ensures r.Ok? ==>
      ParseStatus(status).Some? && r.value == UserCommentsWithStatus(comments, users, bound, caller, ParseStatus(status).value)
  {
    match ParseStatus(status)
    case None => InvalidStatus(status)
    case Some(st) => Ok(UserCommentsWithStatus(comments, users, bound, caller, st))
  }

  /**
   * toggleCommentApprovalStatus: a status outside the three names is a 400;
   * a missing comment yields null; otherwise only the status changes.
   */
  function CommentStatusToggle(comments: map<Id, Comment>, commentId: Id, status: Option<string>): (r: Outcome<Option<Comment>>)
    ensures ParseStatus(status).None? <==> r == InvalidStatus(status)
    ensures ParseStatus(status).Some? && commentId !in comments ==> r == Ok(None)
    ensures r.Ok? && r.value.Some? ==>
      commentId in comments && status == Some(StatusName(r.value.value.status))
      && r.value.value.(status := comments[commentId].status) == comments[commentId]
    ensures (ParseStatus(status).Some? && commentId in comments) ==>
      r == Ok(Some(WithStatus(comments[commentId], ParseStatus(status).value)))
  {
    match ParseStatus(status)
    case None => InvalidStatus(status)
    case Some(st) =>
      if commentId !in comments then Ok(None) else Ok(Some(WithStatus(comments[commentId], st)))
  }

  method ToggleCommentApprovalStatus(store: ContentStore, commentId: Id, status: Option<string>) returns (o: Outcome<Option<Comment>>)
    requires store.Valid()
    modifies store
    ensures store.Valid()
    ensures o == CommentStatusToggle(old(store.comments), commentId, status)
    ensures o.Ok? && o.value.Some? ==> store.comments == old(store.comments)[commentId := o.value.value]
    ensures !(o.Ok? && o.value.Some?) ==> store.comments == old(store.comments)
    ensures store.users == old(store.users) && store.blogs == old(store.blogs) && store.nextId == old(store.nextId)
    ensures store.categories == old(store.categories) && store.likes == old(store.likes)
  {
    o := CommentStatusToggle(store.comments, commentId, status);
    if o.Ok? && o.value.Some? {
      store.comments := store.comments[commentId := o.value.value];
    }
  }

  /**
   * An admin's approval puts a comment on its blog's listing, given that its
   * commenter is still stored; any other decision keeps it off.
   */
  lemma ApprovalShowsComment(comments: map<Id, Comment>, users: map<Id, User>, bound: nat, commentId: Id, st: Status)
    requires AllBelow(comments, bound) && commentId in comments
    ensures var c := WithStatus(comments[commentId], st);
      (c in ApprovedCommentsOf(comments[commentId := c], users, bound, c.blog) <==> st == Approved && ByStoredUser(c, users))
  {
    var c := WithStatus(comments[commentId], st);
    var r := ApprovedCommentsOf(comments[commentId := c], users, bound, c.blog);
    if c in r {
      var i :| 0 <= i < |r| && r[i] == c;
    } else {
      assert comments[commentId := c][commentId] == c;
    }
  }
}
