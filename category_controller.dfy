/**
 * createCategory: an author proposes a category with a name, a description
 * and an image. The route uploads a single file, so `req.file` may carry the
 * image while `req.files` is absent.
 */
module CategoryController {
  import opened Wrappers
  import opened Js
  import opened Collections
  import opened ApiErrors
  import opened Moderation
  import opened CategoryModel
  import opened Store

  const TakenMessage := "A category with the specified name or permalink already exists. Please choose different values."
  const UploadFailedMessage := "Something went wrong while uploading the file. Please check the format or if the image is allowed. Try again later."

  datatype CategoryRequest = CategoryRequest(name: Option<string>, description: Option<string>, permalink: Option<string>)

  /**
   * The request body after the handler's rewrite: a missing or blank
   * permalink is replaced by the slug of the name. Nothing later reads it.
   */
  function RewrittenBody(req: CategoryRequest, slug: string -> string): (body: CategoryRequest)
    requires Truthy(req.name)
    ensures body.name == req.name && body.description == req.description
    ensures MissingOrBlank(req.permalink) ==> body.permalink == Some(slug(req.name.value))
    ensures !MissingOrBlank(req.permalink) ==> body.permalink == req.permalink
  {
    if MissingOrBlank(req.permalink) then req.(permalink := Some(slug(req.name.value))) else req
  }

  /**
   * `Category.find({ $or: [{ name }, { permalink }] })` with the permalink AS
   * SENT: an absent one matches every category stored without a permalink.
   */
  predicate CategoryTaken(categories: map<Id, Category>, name: string, permalink: Option<string>) {
    exists id :: id in categories && (categories[id].name == name || categories[id].permalink == permalink)
  }

  /** Category.create: validation of the required paths, then the two unique indexes. */
  function Inserted(categories: map<Id, Category>, id: Id, caller: Id, name: string, description: string,
                    image: string): (r: Outcome<Category>)
    ensures !r.Fail?
    ensures r.Ok? <==>
      (NewCategory(id, name, description, image, caller).Some?
       && !ClashesWith(categories, NewCategory(id, name, description, image, caller).value))
    ensures r.Ok? ==> r.value == Category(id, None, name, description, image, Pending, caller)
  {
    match NewCategory(id, name, description, image, caller)
    case None => Thrown(ValidationError)
    case Some(c) => if ClashesWith(categories, c) then Thrown(DuplicateKey) else Ok(c)
  }

  /** The image URL, when the single file was sent and its upload succeeded. */
  function UploadedImage(file: Option<string>, upload: string -> Option<string>): (r: Option<string>)
    ensures r.Some? <==> file.Some? && upload(file.value).Some?
    ensures r.Some? ==> r == upload(file.value)
  {
    if file.Some? then upload(file.value) else None
  }

  /**
   * What createCategory does: name and description must be non-blank (400);
   * a name or sent permalink already in use is a 409, reached only after
   * `req.files.image` is read, which throws when the request carried no
   * `files`; the image upload must succeed (500); Category.create then
   * stores a pending category of the caller's without a permalink.
   */
  function CategoryCreation(categories: map<Id, Category>, id: Id, caller: Id, req: CategoryRequest,
                            files: Option<string>, file: Option<string>, upload: string -> Option<string>): (r: Outcome<Category>)
    ensures MissingOrBlank(req.name) || MissingOrBlank(req.description) ==> r == Reject(400, "All fields are required")
    ensures !MissingOrBlank(req.name) && !MissingOrBlank(req.description) && CategoryTaken(categories, req.name.value, req.permalink) ==>
      r == (if files.None? then Thrown(TypeError)
            else Reject(409, TakenMessage))
    ensures !MissingOrBlank(req.name) && !MissingOrBlank(req.description) && !CategoryTaken(categories, req.name.value, req.permalink)
      && UploadedImage(file, upload).None?
      ==> r == Reject(500, UploadFailedMessage)
    ensures r.Ok? ==>
      !MissingOrBlank(req.name) && !MissingOrBlank(req.description)
      && !CategoryTaken(categories, req.name.value, req.permalink) && UploadedImage(file, upload).Some?
      && r.value == Category(id, None, req.name.value, req.description.value, UploadedImage(file, upload).value, Pending, caller)
      && !ClashesWith(categories, r.value)
    ensures (!MissingOrBlank(req.name) && !MissingOrBlank(req.description)
             && !CategoryTaken(categories, req.name.value, req.permalink)
             && UploadedImage(file, upload).Some? && UploadedImage(file, upload).value != ""
             && !ClashesWith(categories, Category(id, None, req.name.value, req.description.value,
                                                  UploadedImage(file, upload).value, Pending, caller))) ==>
      r == Ok(Category(id, None, req.name.value, req.description.value, UploadedImage(file, upload).value, Pending, caller))
  {
    if MissingOrBlank(req.name) || MissingOrBlank(req.description) then
      Reject(400, "All fields are required")
    else if CategoryTaken(categories, req.name.value, req.permalink) then
      if files.None? then Thrown(TypeError)
      else Reject(409, TakenMessage)
    else
      match UploadedImage(file, upload)
      case None =>
        Reject(500, UploadFailedMessage)
      case Some(image) => Inserted(categories, id, caller, req.name.value, req.description.value, image)
  }

  /**
   * Once one category is stored, no other can be: categories are created
   * without a permalink, the permalink index is unique and not sparse, so a
   * request without a permalink is caught by the duplicate query and one with
   * a permalink by the index on insert.
   */
  lemma SecondCategoryRefused(categories: map<Id, Category>, id: Id, caller: Id, req: CategoryRequest,
                              files: Option<string>, file: Option<string>, upload: string -> Option<string>)
    requires exists k :: k in categories && categories[k].permalink.None?
    ensures !CategoryCreation(categories, id, caller, req, files, file, upload).Ok?
  {
    var k :| k in categories && categories[k].permalink.None?;
  }

  /**
   * createCategory returns the outcome and the request body as the handler
   * leaves it (with the permalink rewrite once the fields are present).
   */
  method CreateCategory(store: ContentStore, caller: Id, req: CategoryRequest, files: Option<string>, file: Option<string>,
                        slug: string -> string, upload: string -> Option<string>) returns (o: Outcome<Category>, body: CategoryRequest)
    requires store.Valid()
    modifies store
    ensures store.Valid()
    ensures o == CategoryCreation(old(store.categories), old(store.nextId), caller, req, files, file, upload)
    ensures MissingOrBlank(req.name) || MissingOrBlank(req.description) ==> body == req
    ensures !MissingOrBlank(req.name) && !MissingOrBlank(req.description) ==> body == RewrittenBody(req, slug)
    ensures o.Ok? ==> store.categories == old(store.categories)[old(store.nextId) := o.value] && store.nextId == old(store.nextId) + 1
    ensures !o.Ok? ==> store.categories == old(store.categories) && store.nextId == old(store.nextId)
    ensures store.users == old(store.users) && store.blogs == old(store.blogs)
    ensures store.comments == old(store.comments) && store.likes == old(store.likes)
  {
    body := req;
    if MissingOrBlank(req.name) || MissingOrBlank(req.description) {
      return Reject(400, "All fields are required"), body;
    }
    body := RewrittenBody(req, slug);
    var id := store.nextId;
    o := CategoryCreation(store.categories, id, caller, req, files, file, upload);
    if o.Ok? {
      StoreKeepsUniqueCategoryKeys(store.categories, id, o.value);
      store.categories := store.categories[id := o.value];
      store.nextId := store.nextId + 1;
    }
  }
}
