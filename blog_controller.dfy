/**
 * The blog handlers: creation, the owner's publish toggle, edit and delete,
 * the admin's approval decision, the author dashboards and public listings,
 * and the single-blog view that counts a view.
 *
 * Handlers behind isBlogOwner receive the blog id the guard hands on
 * (`req.blog`) as `blogId`.
 */
module BlogController {
  import opened Wrappers
  import opened Js
  import opened Collections
  import opened ApiErrors
  import opened Moderation
  import opened BlogModel
  import opened CategoryModel
  import opened UserModel
  import opened Store

  // ---------------------------------------------------------------------------
  // createBlog

  /** The text fields of the multipart body; isPublished arrives as whatever the client sent. */
  datatype CreateBlogRequest = CreateBlogRequest(
    title: Option<string>,
    content: Option<string>,
    tags: Option<string>,
    isPublished: JsValue,
    permalink: Option<string>,
    category: Option<string>)

  /** The local paths multer stored: the feature image and the list of content images. */
  datatype BlogFiles = BlogFiles(featureImage: Option<string>, contentImages: Option<seq<string>>)

  predicate FieldsGiven(req: CreateBlogRequest) {
    Truthy(req.title) && Truthy(req.content) && JsTruthy(req.isPublished)
  }

  /** `Category.findOne({ name })` finds a document; an absent name matches none, as name is required. */
  predicate CategoryExists(categories: map<Id, Category>, name: Option<string>) {
    name.Some? && exists id :: id in categories && categories[id].name == name.value
  }

  /**
   * The clean-up before a 400: both file lists are walked with forEach, so a
   * missing list throws a TypeError before the ApiError is raised.
   */
  function AfterUnlinking<T>(files: BlogFiles, failure: Outcome<T>): (r: Outcome<T>)
    ensures files.featureImage.Some? && files.contentImages.Some? ==> r == failure
    ensures files.featureImage.None? || files.contentImages.None? ==> r == Thrown(TypeError)
  {
    if files.featureImage.None? || files.contentImages.None? then Thrown(TypeError) else failure
  }

  /** The slug of the given permalink (or of the title), made distinct with a timestamp when taken. */
  function PermalinkFor(blogs: map<Id, Blog>, rawPermalink: Option<string>, title: string,
                        slug: string -> string, now: nat): (r: string)
    ensures var base := slug(if Truthy(rawPermalink) then rawPermalink.value else title);
      (!HasPermalink(blogs, base) ==> r == base)
      && (HasPermalink(blogs, base) ==> r == base + "-" + DecimalString(now) && r != base && r[..|base|] == base)
  {
    var base := slug(if Truthy(rawPermalink) then rawPermalink.value else title);
    if HasPermalink(blogs, base) then base + "-" + DecimalString(now) else base
  }

  /** The URLs the upload loop collects, one per content image path, or None when an upload fails. */
  function UploadAll(paths: seq<string>, upload: string -> Option<string>): (r: Option<seq<string>>)
    ensures r.Some? <==> forall i :: 0 <= i < |paths| ==> upload(paths[i]).Some?
    ensures r.Some? ==> |r.value| == |paths| && forall i :: 0 <= i < |paths| ==> r.value[i] == upload(paths[i]).value
  {
    if paths == [] then Some([])
    else if upload(paths[0]).None? then None
    else
      match UploadAll(paths[1..], upload)
      case None => None
      case Some(rest) => Some([upload(paths[0]).value] + rest)
  }

  /**
   * The loop that uploads the content images in order and pushes each
   * secure_url; a failed upload returns null, whose secure_url read throws.
   */
  method UploadContentImages(paths: seq<string>, upload: string -> Option<string>) returns (urls: Option<seq<string>>)
    ensures urls == UploadAll(paths, upload)
  {
    var pushed: seq<string> := [];
    var i := 0;
    while i < |paths|
      invariant 0 <= i <= |paths|
      invariant |pushed| == i
      invariant forall k :: 0 <= k < i ==> upload(paths[k]).Some? && pushed[k] == upload(paths[k]).value
    {
      var uploaded := upload(paths[i]);
      if uploaded.None? {
        return None;
      }
      pushed := pushed + [uploaded.value];
      i := i + 1;
    }
    var expected := UploadAll(paths, upload);
    assert expected.Some?;
    assert pushed == expected.value;
    return Some(pushed);
  }

  /**
   * The `blogData` object built key by key: tags when truthy, isPublished
   * cast by the schema (a value Boolean cannot cast fails validation), the
   * feature image when its upload succeeded, content images when any.
   */
  function BlogDataFor(caller: Id, req: CreateBlogRequest, permalink: string,
                       featureImage: Option<string>, urls: seq<string>): (r: Outcome<BlogData>)
    requires FieldsGiven(req)
    ensures r.Ok? <==> CastBoolean(req.isPublished).Some?
    ensures r.Fail? == false
    ensures r.Ok? ==>
      r.value.title == req.title.value && r.value.content == req.content.value
      && r.value.permalink == permalink && r.value.author == caller
      && r.value.featureImage == featureImage
      && r.value.isPublished == CastBoolean(req.isPublished)
      && r.value.contentImages.GetOr([]) == urls
  {
    match CastBoolean(req.isPublished)
    case None => Thrown(ValidationError)
    case Some(flag) =>
      Ok(BlogData(
        req.title.value,
        req.content.value,
        if Truthy(req.tags) then req.tags else None,
        Some(flag),
        permalink,
        featureImage,
        if |urls| > 0 then Some(urls) else None,
        caller))
  }

  /** Blog.create: schema validation, then the unique permalink index. */
  function Created(blogs: map<Id, Blog>, id: Id, data: BlogData, now: nat): (r: Outcome<Blog>)
    ensures r.Ok? ==> !HasPermalink(blogs, r.value.permalink) && Some(r.value) == NewBlog(id, data, now)
    ensures NewBlog(id, data, now).None? ==> r == Thrown(ValidationError)
    ensures !r.Fail?
  {
    match NewBlog(id, data, now)
    case None => Thrown(ValidationError)
    case Some(b) => if HasPermalink(blogs, b.permalink) then Thrown(DuplicateKey) else Ok(b)
  }

  /**
   * What createBlog does, in its order: the three required fields, the
   * category check (which refuses a category that EXISTS), the feature image,
   * the uploads, and Blog.create. The created blog is pending, belongs to
   * the caller and never carries a category.
   */
  function BlogCreation(blogs: map<Id, Blog>, categories: map<Id, Category>, id: Id, caller: Id,
                        req: CreateBlogRequest, files: BlogFiles, slug: string -> string,
                        upload: string -> Option<string>, now: nat): (r: Outcome<Blog>)
    ensures !FieldsGiven(req) ==> r == AfterUnlinking(files, Reject(400, "All fields are required"))
    ensures FieldsGiven(req) && CategoryExists(categories, req.category) ==>
      r == AfterUnlinking(files, Reject(400, "Please provide a valid category."))
    ensures FieldsGiven(req) && !CategoryExists(categories, req.category) && files.featureImage.None? ==>
      r == (if files.contentImages.None? then Thrown(TypeError) else Reject(400, "Feature image file is required"))
    ensures r.Ok? ==>
      FieldsGiven(req) && !CategoryExists(categories, req.category)
      && files.featureImage.Some? && upload(files.featureImage.value).Some?
      && UploadAll(files.contentImages.GetOr([]), upload).Some?
    ensures r.Ok? ==>
      var b := r.value;
      b.id == id && b.author == caller && b.status == Pending && b.views == 0 && !IsPublic(b)
      && b.title == req.title.value && b.content == req.content.value
      && b.permalink == PermalinkFor(blogs, req.permalink, req.title.value, slug, now)
      && !HasPermalink(blogs, b.permalink)
      && b.featureImage == upload(files.featureImage.value).value
      && b.contentImages == UploadAll(files.contentImages.GetOr([]), upload).value
      && CastBoolean(req.isPublished) == Some(b.isPublished)
    ensures (FieldsGiven(req) && !CategoryExists(categories, req.category)
             && files.featureImage.Some? && upload(files.featureImage.value).Some?
             && upload(files.featureImage.value).value != ""
             && UploadAll(files.contentImages.GetOr([]), upload).Some?
             && CastBoolean(req.isPublished).Some?
             && !HasPermalink(blogs, PermalinkFor(blogs, req.permalink, req.title.value, slug, now))) ==> r.Ok?
  {
    if !FieldsGiven(req) then
      AfterUnlinking(files, Reject(400, "All fields are required"))
    else if CategoryExists(categories, req.category) then
      AfterUnlinking(files, Reject(400, "Please provide a valid category."))
    else
      var permalink := PermalinkFor(blogs, req.permalink, req.title.value, slug, now);
      if files.featureImage.None? then
        if files.contentImages.None? then Thrown(TypeError) else Reject(400, "Feature image file is required")
      else
        var featureImage := upload(files.featureImage.value);
        match UploadAll(files.contentImages.GetOr([]), upload)
        case None => Thrown(TypeError)
        case Some(urls) =>
          match BlogDataFor(caller, req, permalink, featureImage, urls)
          case Ok(data) => Created(blogs, id, data, now)
          case Fail(e) => Fail(e)
          case Thrown(x) => Thrown(x)
  }

  /** The blog's new permalink is unique, so the store's invariant survives the insert. */
  method CreateBlog(store: ContentStore, caller: Id, req: CreateBlogRequest, files: BlogFiles,
                    slug: string -> string, upload: string -> Option<string>, now: nat) returns (o: Outcome<Blog>)
    requires store.Valid()
    modifies store
    ensures store.Valid()
    ensures o == BlogCreation(old(store.blogs), old(store.categories), old(store.nextId), caller, req, files, slug, upload, now)
    ensures o.Ok? ==> store.blogs == old(store.blogs)[old(store.nextId) := o.value] && store.nextId == old(store.nextId) + 1
    ensures !o.Ok? ==> store.blogs == old(store.blogs) && store.nextId == old(store.nextId)
    ensures store.users == old(store.users) && store.comments == old(store.comments)
    ensures store.categories == old(store.categories) && store.likes == old(store.likes)
  {
    if !FieldsGiven(req) {
      return AfterUnlinking(files, Reject(400, "All fields are required"));
    }
    if CategoryExists(store.categories, req.category) {
      return AfterUnlinking(files, Reject(400, "Please provide a valid category."));
    }
    var permalink := PermalinkFor(store.blogs, req.permalink, req.title.value, slug, now);
    if files.featureImage.None? {
      if files.contentImages.None? {
        return Thrown(TypeError);
      }
      return Reject(400, "Feature image file is required");
    }
    var contentImagePaths := files.contentImages.GetOr([]);
    var featureImage := upload(files.featureImage.value);
    var urls := UploadContentImages(contentImagePaths, upload);
    if urls.None? {
      return Thrown(TypeError);
    }
    var data := BlogDataFor(caller, req, permalink, featureImage, urls.value);
    if !data.Ok? {
      return Thrown(ValidationError);
    }
    var id := store.nextId;
    o := Created(store.blogs, id, data.value, now);
    if o.Ok? {
      StoreKeepsUniquePermalinks(store.blogs, id, o.value);
      store.blogs := store.blogs[id := o.value];
      store.nextId := store.nextId + 1;
    }
  }

  // ---------------------------------------------------------------------------
  // togglePublishStatus

  /**
   * The owner's publish toggle: only a boolean true or false is accepted
   * (400); the blog must still exist (500 with a null message); only
   * isPublished changes, and the blog is public afterwards exactly when it is
   * approved and the flag is true.
   */
  function PublishToggle(blogs: map<Id, Blog>, blogId: Id, isPublished: JsValue): (r: Outcome<Blog>)
    ensures !isPublished.Bool? ==>
      r == Reject(400, "Invalid isPublished value provided. Only published or draft are allowed.")
    ensures isPublished.Bool? && blogId !in blogs ==>
      r == RejectNullMessage(500, "Something went wrong, please try again")
    ensures r.Ok? <==> isPublished.Bool? && blogId in blogs
    ensures r.Ok? ==>
      r.value.isPublished == isPublished.b && r.value.(isPublished := blogs[blogId].isPublished) == blogs[blogId]
      && (IsPublic(r.value) <==> blogs[blogId].status == Approved && isPublished.b)
  {
    if !isPublished.Bool? then
      Reject(400, "Invalid isPublished value provided. Only published or draft are allowed.")
    else if blogId !in blogs then
      RejectNullMessage(500, "Something went wrong, please try again")
    else
      Ok(WithPublished(blogs[blogId], isPublished.b))
  }

  method TogglePublishStatus(store: ContentStore, blogId: Id, isPublished: JsValue) returns (o: Outcome<Blog>)
    requires store.Valid()
    modifies store
    ensures store.Valid()
    ensures o == PublishToggle(old(store.blogs), blogId, isPublished)
    ensures o.Ok? ==> store.blogs == old(store.blogs)[blogId := o.value]
    ensures !o.Ok? ==> store.blogs == old(store.blogs)
    ensures store.users == old(store.users) && store.comments == old(store.comments) && store.nextId == old(store.nextId)
    ensures store.categories == old(store.categories) && store.likes == old(store.likes)
  {
    o := PublishToggle(store.blogs, blogId, isPublished);
    if o.Ok? {
      StoreKeepsUniquePermalinks(store.blogs, blogId, o.value);
      store.blogs := store.blogs[blogId := o.value];
    }
  }

  // ---------------------------------------------------------------------------
  // updateBlog

  datatype UpdateBlogRequest = UpdateBlogRequest(
    title: Option<string>,
    content: Option<string>,
    tags: Option<string>,
    isPublished: JsValue,
    permalink: Option<string>)

  predicate AnyFieldGiven(req: UpdateBlogRequest) {
    Truthy(req.title) || Truthy(req.content) || Truthy(req.tags) || JsTruthy(req.isPublished) || Truthy(req.permalink)
  }

  /** The permalink updateBlog checks: the slug of the given one, or "" when none is given. */
  function NewPermalink(req: UpdateBlogRequest, slug: string -> string): (r: string)
    ensures Truthy(req.permalink) ==> r == slug(req.permalink.value)
    ensures !Truthy(req.permalink) ==> r == ""
  {
    if Truthy(req.permalink) then slug(req.permalink.value) else ""
  }

  /**
   * The `$set` object: the truthy fields, isPublished as Boolean casts it
   * (an uncastable value makes the update throw), the permalink when
   * non-empty.
   */
  function PatchFor(req: UpdateBlogRequest, permalink: string): (r: Outcome<BlogPatch>)
    ensures r.Ok? <==> !JsTruthy(req.isPublished) || CastBoolean(req.isPublished).Some?
    ensures !r.Ok? ==> r == Thrown(CastError)
    ensures r.Ok? ==>
      (r.value.title.Some? <==> Truthy(req.title)) && (r.value.content.Some? <==> Truthy(req.content))
      && (r.value.tags.Some? <==> Truthy(req.tags)) && (r.value.isPublished.Some? <==> JsTruthy(req.isPublished))
      && (r.value.permalink.Some? <==> permalink != "")
    ensures r.Ok? ==>
      r.value.title == (if Truthy(req.title) then req.title else None)
      && r.value.content == (if Truthy(req.content) then req.content else None)
      && r.value.tags == (if Truthy(req.tags) then req.tags else None)
      && r.value.isPublished == (if JsTruthy(req.isPublished) then CastBoolean(req.isPublished) else None)
      && r.value.permalink == (if permalink != "" then Some(permalink) else None)
  {
    var isPublished := if JsTruthy(req.isPublished) then CastBoolean(req.isPublished) else None;
    if JsTruthy(req.isPublished) && isPublished.None? then
      Thrown(CastError)
    else
      Ok(BlogPatch(
        if Truthy(req.title) then req.title else None,
        if Truthy(req.content) then req.content else None,
        if Truthy(req.tags) then req.tags else None,
        isPublished,
        if permalink != "" then Some(permalink) else None))
  }

  /**
   * What updateBlog does: one field must be given (400); the checked
   * permalink, "" when none was sent, must not be held by ANY blog, this one
   * included (409); the edit then resets status to pending and changes only
   * the supplied fields, so the blog leaves the public listings.
   */
  function BlogUpdate(blogs: map<Id, Blog>, blogId: Id, req: UpdateBlogRequest, slug: string -> string): (r: Outcome<Blog>)
    ensures !AnyFieldGiven(req) ==> r == Reject(400, "At least one field must be provided for update.")
    ensures AnyFieldGiven(req) && HasPermalink(blogs, NewPermalink(req, slug)) ==>
      r == Reject(409, "Permalink must be unique; duplicate permalink not allowed.")
    ensures r.Ok? ==>
      blogId in blogs && AnyFieldGiven(req) && !HasPermalink(blogs, NewPermalink(req, slug))
      && r.value.status == Pending && !IsPublic(r.value)
      && r.value.id == blogs[blogId].id && r.value.author == blogs[blogId].author
      && r.value.views == blogs[blogId].views
      && r.value.title == (if Truthy(req.title) then req.title.value else blogs[blogId].title)
      && r.value.content == (if Truthy(req.content) then req.content.value else blogs[blogId].content)
      && r.value.permalink == (if NewPermalink(req, slug) != "" then NewPermalink(req, slug) else blogs[blogId].permalink)
      && r.value.featureImage == blogs[blogId].featureImage && r.value.contentImages == blogs[blogId].contentImages
    ensures r.Ok? ==> (r.value.permalink == blogs[blogId].permalink || !HasPermalink(blogs, r.value.permalink))
    ensures r.Ok? ==>
      PatchFor(req, NewPermalink(req, slug)).Ok?
      && r.value == Patched(blogs[blogId], PatchFor(req, NewPermalink(req, slug)).value)
      && r.value.tags == (if Truthy(req.tags) then req.tags else blogs[blogId].tags)
      && r.value.isPublished == (if JsTruthy(req.isPublished) then CastBoolean(req.isPublished).value else blogs[blogId].isPublished)
    ensures (AnyFieldGiven(req) && !HasPermalink(blogs, NewPermalink(req, slug))
             && !PatchFor(req, NewPermalink(req, slug)).Ok?) ==> r == Thrown(CastError)
    ensures (AnyFieldGiven(req) && !HasPermalink(blogs, NewPermalink(req, slug))
             && PatchFor(req, NewPermalink(req, slug)).Ok? && blogId !in blogs) ==>
      r == RejectNullMessage(500, "Failed to update blog post. Please try again later.")
    ensures r.Ok? <==>
      AnyFieldGiven(req) && !HasPermalink(blogs, NewPermalink(req, slug))
      && PatchFor(req, NewPermalink(req, slug)).Ok? && blogId in blogs
  {
    if !AnyFieldGiven(req) then
      Reject(400, "At least one field must be provided for update.")
    else
      var permalink := NewPermalink(req, slug);
      if HasPermalink(blogs, permalink) then
        Reject(409, "Permalink must be unique; duplicate permalink not allowed.")
      else
        match PatchFor(req, permalink)
        case Fail(e) => Fail(e)
        case Thrown(x) => Thrown(x)
        case Ok(patch) =>
          if blogId !in blogs then
            RejectNullMessage(500, "Failed to update blog post. Please try again later.")
          else
            Ok(Patched(blogs[blogId], patch))
  }

  /**
   * With no permalink in the request, updateBlog looks for a blog whose
   * permalink is "" and refuses only if one exists, so an edit of the other
   * fields is not blocked by the blog's own permalink.
   */
  lemma UpdateWithoutPermalinkChecksEmpty(blogs: map<Id, Blog>, blogId: Id, req: UpdateBlogRequest, slug: string -> string)
    requires AnyFieldGiven(req) && !Truthy(req.permalink)
    requires blogId in blogs && (forall id :: id in blogs ==> blogs[id].permalink != "")
    requires !JsTruthy(req.isPublished)
    ensures BlogUpdate(blogs, blogId, req, slug).Ok?
    ensures BlogUpdate(blogs, blogId, req, slug).value.permalink == blogs[blogId].permalink
  {
    assert NewPermalink(req, slug) == "";
    assert !HasPermalink(blogs, "");
  }

  method UpdateBlog(store: ContentStore, blogId: Id, req: UpdateBlogRequest, slug: string -> string) returns (o: Outcome<Blog>)
    requires store.Valid()
    modifies store
    ensures store.Valid()
    ensures o == BlogUpdate(old(store.blogs), blogId, req, slug)
    ensures o.Ok? ==> store.blogs == old(store.blogs)[blogId := o.value]
    ensures !o.Ok? ==> store.blogs == old(store.blogs)
    ensures store.users == old(store.users) && store.comments == old(store.comments) && store.nextId == old(store.nextId)
    ensures store.categories == old(store.categories) && store.likes == old(store.likes)
  {
    o := BlogUpdate(store.blogs, blogId, req, slug);
    if o.Ok? {
      StoreKeepsUniquePermalinks(store.blogs, blogId, o.value);
      store.blogs := store.blogs[blogId := o.value];
    }
  }

  // ---------------------------------------------------------------------------
  // deleteBlog

  /** What deleteBlog returns: the images it releases, in order, and the deleted blog (null when already gone). */
  datatype Deletion = Deletion(released: seq<string>, deleted: Option<Blog>)

  /**
   * deleteBlog reads the blog's images from `blogData` (`req.blog_data`,
   * which no guard sets: absent, reading it throws), releases the content
   * images and then the feature image, and deletes the blog by id.
   */
  method DeleteBlog(store: ContentStore, blogId: Id, blogData: Option<Blog>) returns (o: Outcome<Deletion>)
    requires store.Valid()
    modifies store
    ensures store.Valid()
    ensures blogData.None? ==> o == Thrown(TypeError) && store.blogs == old(store.blogs)
    ensures blogData.Some? ==>
      o.Ok? && o.value.released == blogData.value.contentImages + [blogData.value.featureImage]
      && o.value.deleted == (if blogId in old(store.blogs) then Some(old(store.blogs)[blogId]) else None)
      && store.blogs == old(store.blogs) - {blogId}
    ensures store.users == old(store.users) && store.comments == old(store.comments) && store.nextId == old(store.nextId)
    ensures store.categories == old(store.categories) && store.likes == old(store.likes)
  {
    if blogData.None? {
      return Thrown(TypeError);
    }
    var released: seq<string> := [];
    var images := blogData.value.contentImages;
    var i := 0;
    while i < |images|
      invariant 0 <= i <= |images|
      invariant released == images[..i]
    {
      released := released + [images[i]];
      i := i + 1;
    }
    assert images[..|images|] == images;
    released := released + [blogData.value.featureImage];
    var deleted := if blogId in store.blogs then Some(store.blogs[blogId]) else None;
    store.blogs := store.blogs - {blogId};
    return Ok(Deletion(released, deleted));
  }

  // ---------------------------------------------------------------------------
  // toggleApprovalStatus

  /**
   * The admin's decision: the status is checked BEFORE the permalink (both
   * 400); a permalink no blog holds is not an error and yields null; the
   * found blog changes only its status.
   */
  function ApprovalToggle(blogs: map<Id, Blog>, bound: nat, permalink: Option<string>, status: Option<string>): (r: Outcome<Option<(Id, Blog)>>)
    requires AllBelow(blogs, bound)
    ensures ParseStatus(status).None? ==>
      r == InvalidStatus(status)
    ensures ParseStatus(status).Some? && !Truthy(permalink) ==>
      r == Reject(400, "Permalink is required to update the approval status of the post.")
    ensures ParseStatus(status).Some? && Truthy(permalink) && !HasPermalink(blogs, permalink.value) ==> r == Ok(None)
    ensures r.Ok? && r.value.Some? ==>
      var (id, b) := r.value.value;
      id in blogs && blogs[id].permalink == permalink.value
      && b == Reviewed(blogs[id], ParseStatus(status).value)
      && b.status == ParseStatus(status).value && b.(status := blogs[id].status) == blogs[id]
    ensures (ParseStatus(status).Some? && Truthy(permalink) && HasPermalink(blogs, permalink.value)) ==>
      var id := BlogByPermalink(blogs, permalink.value, bound).value;
      r == Ok(Some((id, Reviewed(blogs[id], ParseStatus(status).value))))
  {
    match ParseStatus(status)
    case None =>
      InvalidStatus(status)
    case Some(st) =>
      if !Truthy(permalink) then
        Reject(400, "Permalink is required to update the approval status of the post.")
      else
        match BlogByPermalink(blogs, permalink.value, bound)
        case None => Ok(None)
        case Some(id) => Ok(Some((id, Reviewed(blogs[id], st))))
  }

  method ToggleApprovalStatus(store: ContentStore, permalink: Option<string>, status: Option<string>) returns (o: Outcome<Option<Blog>>)
    requires store.Valid()
    modifies store
    ensures store.Valid()
    ensures match ApprovalToggle(old(store.blogs), old(store.nextId), permalink, status)
      case Ok(Some((id, b))) => o == Ok(Some(b)) && store.blogs == old(store.blogs)[id := b]
      case Ok(None) => o == Ok(None) && store.blogs == old(store.blogs)
      case Fail(e) => o == Fail(e) && store.blogs == old(store.blogs)
      case Thrown(x) => o == Thrown(x) && store.blogs == old(store.blogs)
    ensures store.users == old(store.users) && store.comments == old(store.comments) && store.nextId == old(store.nextId)
    ensures store.categories == old(store.categories) && store.likes == old(store.likes)
  {
    match ApprovalToggle(store.blogs, store.nextId, permalink, status)
    case Fail(e) => return Fail(e);
    case Thrown(x) => return Thrown(x);
    case Ok(None) => return Ok(None);
    case Ok(Some((id, b))) =>
      StoreKeepsUniquePermalinks(store.blogs, id, b);
      store.blogs := store.blogs[id := b];
      return Ok(Some(b));
  }

  // ---------------------------------------------------------------------------
  // Listings (pagination is not modelled: each returns the whole match in natural order)

  /** getUserPrivateBlogs: the caller's drafts, whatever their status. */
  function PrivateBlogs(blogs: map<Id, Blog>, bound: nat, caller: Id): (r: seq<Blog>)
    requires AllBelow(blogs, bound)
    ensures forall i :: 0 <= i < |r| ==> r[i] in blogs.Values && r[i].author == caller && !r[i].isPublished
    ensures forall id :: id in blogs && blogs[id].author == caller && !blogs[id].isPublished ==> blogs[id] in r
  {
    Find(blogs, (b: Blog) => b.author == caller && !b.isPublished, bound)
  }

  /** getUserPendingBlogs, getUserApprovedBlogs, getUserRejectedBlogs: the caller's blogs with one status. */
  function BlogsWithStatus(blogs: map<Id, Blog>, bound: nat, caller: Id, st: Status): (r: seq<Blog>)
    requires AllBelow(blogs, bound)
    ensures forall i :: 0 <= i < |r| ==> r[i] in blogs.Values && r[i].author == caller && r[i].status == st
    ensures forall id :: id in blogs && blogs[id].author == caller && blogs[id].status == st ==> blogs[id] in r
  {
    Find(blogs, (b: Blog) => b.author == caller && b.status == st, bound)
  }

  /** getUserPublicBlogs: the caller's published blogs, approved or not. */
  function PublishedBlogs(blogs: map<Id, Blog>, bound: nat, caller: Id): (r: seq<Blog>)
    requires AllBelow(blogs, bound)
    ensures forall i :: 0 <= i < |r| ==> r[i] in blogs.Values && r[i].author == caller && r[i].isPublished
    ensures forall id :: id in blogs && blogs[id].author == caller && blogs[id].isPublished ==> blogs[id] in r
  {
    Find(blogs, (b: Blog) => b.author == caller && b.isPublished, bound)
  }

  /** getUserLiveBlogs: the caller's public blogs. */
  function LiveBlogs(blogs: map<Id, Blog>, bound: nat, caller: Id): (r: seq<Blog>)
    requires AllBelow(blogs, bound)
    ensures forall i :: 0 <= i < |r| ==> r[i] in blogs.Values && r[i].author == caller && IsPublic(r[i])
    ensures forall id :: id in blogs && blogs[id].author == caller && IsPublic(blogs[id]) ==> blogs[id] in r
  {
    Find(blogs, (b: Blog) => b.author == caller && IsPublic(b), bound)
  }

  /** fetchAllPublicBlogs: exactly the approved and published blogs. */
  function AllPublicBlogs(blogs: map<Id, Blog>, bound: nat): (r: seq<Blog>)
    requires AllBelow(blogs, bound)
    ensures forall i :: 0 <= i < |r| ==> r[i] in blogs.Values && IsPublic(r[i])
    ensures forall id :: id in blogs && IsPublic(blogs[id]) ==> blogs[id] in r
  {
    Find(blogs, IsPublic, bound)
  }

  /**
   * fetchUserAllLiveBlogs: the public blogs of the user with the given
   * username; no such user (or no username) gives an empty listing.
   */
  function UserAllLiveBlogs(users: map<Id, User>, blogs: map<Id, Blog>, bound: nat, username: Option<string>): (r: seq<Blog>)
    requires AllBelow(users, bound) && AllBelow(blogs, bound)
    ensures (forall id :: id in users ==> username != Some(users[id].username)) ==> r == []
    ensures forall i :: 0 <= i < |r| ==>
      r[i] in blogs.Values && IsPublic(r[i]) && r[i].author in users && username == Some(users[r[i].author].username)
    ensures forall uid, id ::
      (uid in users && username == Some(users[uid].username)
       && (forall other :: other in users && other != uid ==> users[other].username != users[uid].username)
       && id in blogs && blogs[id].author == uid && IsPublic(blogs[id]))
      ==> blogs[id] in r
  {
    match FindFirst(users, (u: User) => username == Some(u.username), bound)
    case None => []
    case Some(uid) => LiveBlogs(blogs, bound, uid)
  }

  /**
   * Creating a blog leaves the public listing as it was: the new blog is
   * pending, so it is not listed, and no listed blog changes.
   */
  lemma CreationLeavesPublicListing(blogs: map<Id, Blog>, bound: nat, b: Blog)
    requires AllBelow(blogs, bound)
    requires !IsPublic(b)
    ensures AllPublicBlogs(blogs[bound := b], bound + 1) == AllPublicBlogs(blogs, bound)
  {
    FindIgnoresUnmatchedInsert(blogs, IsPublic, bound, b);
  }

  /**
   * An admin's approval makes a published blog public and a rejection
   * withdraws it: the decided blog is listed exactly when the decision is
   * approval and the owner has published it.
   */
  lemma ApprovalDecidesListing(blogs: map<Id, Blog>, bound: nat, id: Id, st: Status)
    requires AllBelow(blogs, bound) && id in blogs
    ensures var b := Reviewed(blogs[id], st);
      (b in AllPublicBlogs(blogs[id := b], bound) <==> st == Approved && blogs[id].isPublished)
  {
    var b := Reviewed(blogs[id], st);
    var r := AllPublicBlogs(blogs[id := b], bound);
    if b in r {
      var i :| 0 <= i < |r| && r[i] == b;
      assert IsPublic(r[i]);
    } else {
      assert blogs[id := b][id] == b;
    }
  }

  // ---------------------------------------------------------------------------
  // fetchBlogByPermalink

  /** The author fields the lookup projects. */
  datatype AuthorCard = AuthorCard(fullName: string, avatar: string)

  /** The projected blog the view returns. */
  datatype BlogView = BlogView(
    id: Id,
    permalink: string,
    title: string,
    content: string,
    featureImage: string,
    contentImages: seq<string>,
    views: nat,
    author: AuthorCard,
    createdAt: int)

  /**
   * The aggregation's match: the blog with the permalink whose author still
   * exists (the unwind drops a blog without one). Neither status nor
   * isPublished is consulted.
   */
  function ViewedBlog(blogs: map<Id, Blog>, users: map<Id, User>, bound: nat, permalink: string): (r: Option<Id>)
    ensures r.Some? ==> r.value in blogs && blogs[r.value].permalink == permalink && blogs[r.value].author in users
    ensures r.None? ==> forall id :: id < bound && id in blogs && blogs[id].permalink == permalink ==> blogs[id].author !in users
  {
    FindFirst(blogs, (b: Blog) => b.permalink == permalink && b.author in users, bound)
  }

  /**
   * The view is blind to moderation: a pending, rejected or draft blog is
   * found exactly as an approved and published one would be.
   */
  lemma {:induction false} ViewIgnoresModeration(blogs: map<Id, Blog>, users: map<Id, User>, bound: nat, permalink: string,
                                                 id: Id, st: Status, published: bool)
    requires id in blogs
    ensures ViewedBlog(blogs[id := blogs[id].(status := st, isPublished := published)], users, bound, permalink)
      == ViewedBlog(blogs, users, bound, permalink)
  {
    var keep := (b: Blog) => b.permalink == permalink && b.author in users;
    MatchingIdsAgree(blogs[id := blogs[id].(status := st, isPublished := published)], blogs, keep, bound);
  }

  /** The `$project` stage: the blog's public fields and the author's name and avatar. */
  function ViewOfBlog(b: Blog, author: User): (v: BlogView)
    ensures v.id == b.id && v.permalink == b.permalink && v.title == b.title && v.content == b.content
    ensures v.featureImage == b.featureImage && v.contentImages == b.contentImages
    ensures v.views == b.views && v.createdAt == b.createdAt
    ensures v.author == AuthorCard(author.fullName, author.avatar)
  {
    BlogView(b.id, b.permalink, b.title, b.content, b.featureImage, b.contentImages, b.views,
             AuthorCard(author.fullName, author.avatar), b.createdAt)
  }

  /**
   * fetchBlogByPermalink: an empty permalink or no match is a 404; the match
   * is returned as it was read and its view count then goes up by exactly 1.
   */
  method FetchBlogByPermalink(store: ContentStore, permalink: string) returns (o: Outcome<BlogView>)
    requires store.Valid()
    modifies store
    ensures store.Valid()
    ensures permalink == "" ==>
      o == Reject(404, "Permalink parameter is missing. Please provide a valid permalink in the URL.")
    ensures permalink != "" && ViewedBlog(old(store.blogs), store.users, store.nextId, permalink).None? ==>
      o == Reject(404, "Blog not found")
    ensures o.Ok? ==>
      var id := ViewedBlog(old(store.blogs), store.users, store.nextId, permalink).value;
      o.value == ViewOfBlog(old(store.blogs)[id], store.users[old(store.blogs)[id].author])
      && store.blogs == old(store.blogs)[id := Viewed(old(store.blogs)[id])]
    ensures !o.Ok? ==> store.blogs == old(store.blogs)
    ensures o.Ok? <==> permalink != "" && ViewedBlog(old(store.blogs), store.users, store.nextId, permalink).Some?
    ensures store.users == old(store.users) && store.comments == old(store.comments) && store.nextId == old(store.nextId)
    ensures store.categories == old(store.categories) && store.likes == old(store.likes)
  {
    if permalink == "" {
      return Reject(404, "Permalink parameter is missing. Please provide a valid permalink in the URL.");
    }
    var found := ViewedBlog(store.blogs, store.users, store.nextId, permalink);
    if found.None? {
      return Reject(404, "Blog not found");
    }
    var b := store.blogs[found.value];
    o := Ok(ViewOfBlog(b, store.users[b.author]));
    StoreKeepsUniquePermalinks(store.blogs, found.value, Viewed(b));
    store.blogs := store.blogs[found.value := Viewed(b)];
  }
}
