/**
 * The Comment document: a required blog reference and content, an optional
 * commenter, and the moderation status defaulting to pending.
 */
module CommentModel {
  import opened Wrappers
  import opened Collections
  import opened Moderation

  datatype Comment = Comment(id: Id, blog: Id, commentBy: Option<Id>, content: string, status: Status)

  /**
   * Comment.create: content is required (the blog reference always is, being
   * an id here); status takes its default. None is a validation error.
   */
  function NewComment(id: Id, blog: Id, commentBy: Option<Id>, content: string): (r: Option<Comment>)
    ensures r.Some? <==> content != ""
    ensures r.Some? ==> r.value.id == id && r.value.blog == blog && r.value.commentBy == commentBy
    ensures r.Some? ==> r.value.content == content && r.value.status == Pending
  {
    if content == "" then None else Some(Comment(id, blog, commentBy, content, DefaultStatus))
  }

  /** An edit: only the content changes; the status is not reset. */
  function WithContent(c: Comment, content: string): (r: Comment)
    ensures r.content == content && r.(content := c.content) == c
    ensures r.status == c.status
  {
    c.(content := content)
  }

  /** An admin's status decision on a comment: only the status changes. */
  function WithStatus(c: Comment, st: Status): (r: Comment)
    ensures r.status == st && r.(status := c.status) == c
  {
    c.(status := st)
  }
}
