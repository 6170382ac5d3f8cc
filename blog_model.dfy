/**
 * The Blog document: its schema (required fields, the status enum, the
 * defaults for status, views and isPublished, the unique permalink) and the
 * field updates the handlers apply to it.
 */
module BlogModel {
  import opened Wrappers
  import opened Collections
  import opened Moderation

  datatype Blog = Blog(
    id: Id,
    permalink: string,
    title: string,
    content: string,
    featureImage: string,
    contentImages: seq<string>,
    tags: Option<string>,
    views: nat,
    status: Status,
    isPublished: bool,
    author: Id,
    createdAt: int)

  /**
   * The object createBlog hands to Blog.create: only the keys it set. The
   * schema has no category path, so a category key would be dropped anyway.
   */
  datatype BlogData = BlogData(
    title: string,
    content: string,
    tags: Option<string>,
    isPublished: Option<bool>,
    permalink: string,
    featureImage: Option<string>,
    contentImages: Option<seq<string>>,
    author: Id)

  /** Mongoose's `required` on a String path: present and not the empty string. */
  predicate Required(v: Option<string>) {
    v.Some? && v.value != ""
  }

  /** The public visibility predicate: approved by an admin and published by the owner. */
  predicate IsPublic(b: Blog) {
    b.status == Approved && b.isPublished
  }

  /**
   * Blog.create: validation of the required paths, then the schema defaults
   * (status pending, views 0, isPublished true, no content images). None is a
   * validation error.
   */
  function NewBlog(id: Id, data: BlogData, now: int): (r: Option<Blog>)
    ensures r.Some? <==> data.title != "" && data.content != "" && Required(data.featureImage)
    ensures r.Some? ==> r.value.id == id && r.value.author == data.author && r.value.permalink == data.permalink
    ensures r.Some? ==> r.value.status == Pending && r.value.views == 0 && !IsPublic(r.value)
    ensures r.Some? ==> r.value.isPublished == (data.isPublished.None? || data.isPublished.value)
    ensures r.Some? ==> r.value.contentImages == data.contentImages.GetOr([])
  {
    if data.title != "" && data.content != "" && Required(data.featureImage) then
      Some(Blog(
        id,
        data.permalink,
        data.title,
        data.content,
        data.featureImage.value,
        data.contentImages.GetOr([]),
        data.tags,
        0,
        DefaultStatus,
        data.isPublished.GetOr(true),
        data.author,
        now))
    else
      None
  }

  /** An admin's status decision: any status to any status, nothing else changes. */
  function Reviewed(b: Blog, st: Status): (r: Blog)
    ensures r.status == st && r.(status := b.status) == b
    ensures IsPublic(r) <==> st == Approved && b.isPublished
  {
    b.(status := st)
  }

  /** The owner's publish toggle: only isPublished changes. */
  function WithPublished(b: Blog, flag: bool): (r: Blog)
    ensures r.isPublished == flag && r.(isPublished := b.isPublished) == b
    ensures IsPublic(r) <==> b.status == Approved && flag
  {
    b.(isPublished := flag)
  }

  /** The `$set` object updateBlog builds: the fields it was given, status always. */
  datatype BlogPatch = BlogPatch(
    title: Option<string>,
    content: Option<string>,
    tags: Option<string>,
    isPublished: Option<bool>,
    permalink: Option<string>)

  /**
   * An owner's edit: status goes back to pending, each supplied field is
   * overwritten and every other field is kept, so the blog leaves the public
   * listings until an admin approves it again.
   */
  function Patched(b: Blog, p: BlogPatch): (r: Blog)
    ensures r.status == Pending && !IsPublic(r)
    ensures r.title == p.title.GetOr(b.title) && r.content == p.content.GetOr(b.content)
    ensures r.tags == (if p.tags.Some? then p.tags else b.tags)
    ensures r.isPublished == p.isPublished.GetOr(b.isPublished)
    ensures r.permalink == p.permalink.GetOr(b.permalink)
    ensures r.id == b.id && r.author == b.author && r.views == b.views && r.createdAt == b.createdAt
    ensures r.featureImage == b.featureImage && r.contentImages == b.contentImages
  {
    b.(
      status := Pending,
      title := p.title.GetOr(b.title),
      content := p.content.GetOr(b.content),
      tags := if p.tags.Some? then p.tags else b.tags,
      isPublished := p.isPublished.GetOr(b.isPublished),
      permalink := p.permalink.GetOr(b.permalink))
  }

  /** `$inc: { views: 1 }`. */
  function Viewed(b: Blog): (r: Blog)
    ensures r.views == b.views + 1 && r.(views := b.views) == b
    ensures IsPublic(r) == IsPublic(b)
  {
    b.(views := b.views + 1)
  }

  /** The unique index on permalink. */
  predicate UniquePermalinks(blogs: map<Id, Blog>) {
    forall i, j :: i in blogs && j in blogs && blogs[i].permalink == blogs[j].permalink ==> i == j
  }

  predicate HasPermalink(blogs: map<Id, Blog>, permalink: string) {
    exists id :: id in blogs && blogs[id].permalink == permalink
  }

  /** `Blog.findOne({ permalink })`: the blog holding the permalink, if any. */
  function BlogByPermalink(blogs: map<Id, Blog>, permalink: string, bound: nat): (r: Option<Id>)
    requires AllBelow(blogs, bound)
    ensures r.Some? ==> r.value in blogs && blogs[r.value].permalink == permalink
    ensures r.None? <==> !HasPermalink(blogs, permalink)
  {
    FindFirst(blogs, (b: Blog) => b.permalink == permalink, bound)
  }

  /**
   * Storing a blog under an id keeps permalinks unique when it keeps that id's
   * permalink or takes one no blog holds.
   */
  lemma StoreKeepsUniquePermalinks(blogs: map<Id, Blog>, id: Id, b: Blog)
    requires UniquePermalinks(blogs)
    requires (id in blogs && b.permalink == blogs[id].permalink) || !HasPermalink(blogs, b.permalink)
    ensures UniquePermalinks(blogs[id := b])
  {
  }
}
