# TechTales moderation and access model

This project models the moderation and access rules of the TechTales blog backend, an Express and Mongoose REST service. The model covers:

- the content store: users, blogs, comments, categories and likes, kept as maps from document id to document, with ids handed out in increasing order;
- the request guards: the access token, blog ownership and the admin role;
- the handlers of the blog, comment, category, like, search and user controllers (the few not covered are listed under "## Left out").

The store is the `ContentStore` class of module `Store`. Each handler that writes to it is a `method` taking the store, proved against a pure decision function: the method's `ensures` ties its outcome to that function and states the new store. The store invariant `Valid()` covers three things:

- id allocation;
- the unique indexes on blog permalinks, on user names, e-mails and numbers, and on category names and permalinks;
- at most one like per (target, user) pair.

Every handler preserves it. The pure functions carry the properties the service promises:

- the moderation lifecycle: every new blog, comment and category is pending, and an owner's edit sends a blog back to pending;
- public visibility: approved AND published;
- the error paths, with their status codes and messages;
- the refresh-token rotation;
- the like toggle and its counts.

An outcome is `Ok`, `Fail` (an `ApiError` thrown by the handler) or `Thrown`. `Thrown` covers any other exception that reaches the async wrapper:

- a `TypeError` from reading a property of null or undefined;
- a Mongoose validation or cast error;
- a duplicate-key error from a unique index;
- a bcrypt argument error.

The model keeps the source's behaviour as written, including these:

- createBlog refuses a category that exists, and never stores one.
- fetchBlogByPermalink ignores status and isPublished.
- isBlogOwner has no admin bypass.
- isAdmin fails with 401 and a null message.
- updateBlog without a permalink looks for a blog whose permalink is "".
- Only one category can ever be stored: categories are created without a permalink, and the permalink index is unique and not sparse.
- A query condition whose value the request left undefined (`{ permalink: undefined }`) is sent as null, because the MongoDB driver's `ignoreUndefined` option is off by default, so it matches documents that lack the field. `CategoryController.CategoryTaken` reads the sent permalink this way.

Opaque services are parameters:

- slugify (`slug`);
- `Date.now()` (`now`);
- the Cloudinary upload (`upload`, `None` for a failed upload);
- JWT signing and verification (`sign`, `verify`);
- the case-insensitive regular-expression test of the search (`matches`);
- `String.prototype.toLowerCase` (`lower`);
- Mongoose's cast of a string to the Number path of `number` (`castNumber`).

A bcrypt digest is modelled as `Bcrypt(plain)`, without the salt.

## Model

| member | source | states |
|---|---|---|
| ApiErrors.NewApiError | src/utils/ApiError.js:17-39 | the status code is kept, data is null and success false; an omitted message becomes "Something went wrong" and omitted errors become []; an explicit null message stays null |
| ApiErrors.Reject | src/utils/ApiError.js:17-39 | `new ApiError(code, msg)` fails with that status code and that message |
| ApiErrors.RejectNullMessage | src/middlewares/isAdmin.middleware.js:9 | the three-argument call `new ApiError(code, null, text)` leaves the message null and puts the text in `errors` |
| ApiErrors.MessageOr | src/middlewares/auth.middleware.js:41 | `error?.message \|\| fallback`: a truthy message is kept, anything else becomes the fallback |
| Js.CastBoolean | src/models/blog.models.js:41-44 | a value cast to the Boolean path: true, "true", "1" and "yes" are true; false, "false", "0" and "no" are false; anything else fails |
| Js.Trim | src/controllers/search.controller.js:7 | `trim` removes leading and trailing ECMAScript white space (tab, vertical tab, form feed, BOM, every space separator, and the line terminators LF, CR, U+2028, U+2029): the result is empty exactly when the input is all such white space, and otherwise starts and ends with a character outside that set |
| Js.TrimmedEmpty | src/controllers/comment.controller.js:12 | `s.trim() === ""` holds exactly when every character of `s` is ECMAScript white space or a line terminator |
| Js.FirstOccurrence | src/middlewares/auth.middleware.js:13 | the least index at or after `from` where the pattern occurs, or None when it occurs nowhere |
| Js.ReplaceFirst | src/middlewares/auth.middleware.js:13 | a string without the pattern is returned unchanged; otherwise the first occurrence, and only it, is replaced: the prefix before it, the replacement, and the rest after it |
| Js.ReplaceFirstAtStart | src/middlewares/auth.middleware.js:13 | removing the first "Bearer " from "Bearer " + t gives t, whatever t contains |
| Js.DecimalString | src/controllers/blog.controller.js:50 | the rendering of `Date.now()` is a non-empty string of decimal digits |
| Collections.MatchingIds | src/controllers/blog.controller.js:556-617 | a query's ids are exactly the stored ids that match, in increasing (natural) order |
| Collections.Select | src/controllers/blog.controller.js:556-617 | the documents of the given ids, in that order |
| Collections.Find | src/controllers/blog.controller.js:556-617 | an unsorted query returns every stored document that matches and only those |
| Collections.FindFirst | src/middlewares/isOwner.middleware.js:8 | findOne returns the first matching id in natural order, or None when no stored document matches |
| Collections.MatchingIdsAgree | src/controllers/blog.controller.js:556-617 | two collections that agree below the bound give the same query result |
| Collections.MatchingIdsNoneBeyond | src/controllers/blog.controller.js:556-617 | ids past the bound whose documents do not match add nothing to a query |
| Collections.FindIgnoresUnmatchedInsert | src/controllers/blog.controller.js:556-617 | inserting a non-matching document under the next id leaves a query's result unchanged |
| Moderation.ParseStatus | src/controllers/blog.controller.js:430-435 | a status value is accepted exactly when it is "pending", "approved" or "rejected", and is read as that status |
| Moderation.ParseStatusName | src/controllers/blog.controller.js:430-435 | every status is accepted under its own name |
| Moderation.InvalidStatus | src/controllers/comment.controller.js:267-272 | a rejected status is a 400 whose message names the value sent, printing "undefined" for an absent one |
| UserModel.OnSave | src/models/user.model.js:56-60 | a modified password is stored as its digest; an unmodified one is kept |
| UserModel.Subject | src/middlewares/auth.middleware.js:25 | `decodedToken?._id`: the id of an access or refresh payload, absent for any other payload |
| UserModel.AccessClaimsOf | src/models/user.model.js:68-81 | the access token carries the user's _id, email, username and fullName |
| UserModel.RefreshClaimsOf | src/models/user.model.js:84-94 | the refresh token carries only the user's _id |
| UserModel.ViewOf | src/middlewares/auth.middleware.js:25-27 | the returned user drops the password, and drops the refresh token unless it is asked for; every other field is kept |
| UserModel.CastNumber | src/models/user.model.js:26-30 | a string sent for the Number path `number` is cast to null exactly when it is empty; any other string is a number exactly when JavaScript's `Number` gives one, and is otherwise uncastable (a cast error) |
| UserModel.StoreKeepsUniqueKeys | src/models/user.model.js:7-52 | storing a user whose username, email and number no other user holds keeps the three unique indexes |
| BlogModel.NewBlog | src/models/blog.models.js:6-54 | Blog.create succeeds exactly when title, content and featureImage are present and non-empty; the blog is pending, has 0 views, is not public, is published unless told otherwise, and keeps the author and permalink it was given |
| BlogModel.Reviewed | src/controllers/blog.controller.js:443-454 | an approval decision changes only the status; the blog is public afterwards exactly when it is approved and published |
| BlogModel.WithPublished | src/controllers/blog.controller.js:106-110 | the publish toggle changes only isPublished; the blog is public afterwards exactly when it is approved and the flag is set |
| BlogModel.Patched | src/controllers/blog.controller.js:154-177 | an edit resets status to pending, so the blog is not public; each supplied field is overwritten and every other field is kept |
| BlogModel.Viewed | src/controllers/blog.controller.js:541-549 | a view adds exactly 1 to views and changes nothing else, visibility included |
| BlogModel.BlogByPermalink | src/middlewares/isOwner.middleware.js:8 | the blog holding the permalink, or None exactly when no blog holds it |
| BlogModel.StoreKeepsUniquePermalinks | src/models/blog.models.js:8-11 | a write that keeps the blog's own permalink, or takes one that no blog holds, keeps permalinks unique |
| CommentModel.NewComment | src/models/comment.model.js:4-26 | Comment.create succeeds exactly when the content is non-empty; the comment records the blog and the commenter and is pending |
| CommentModel.WithContent | src/controllers/comment.controller.js:61-63 | an edit changes only the content; the status is not reset |
| CommentModel.WithStatus | src/controllers/comment.controller.js:324-330 | an admin decision changes only the status |
| CategoryModel.NewCategory | src/models/category.model.js:6-39 | Category.create succeeds exactly when name, description and image are non-empty; the category has no permalink and is pending |
| CategoryModel.StoreKeepsUniqueCategoryKeys | src/models/category.model.js:8-16 | inserting a category that clashes with none keeps the name and permalink indexes unique |
| LikeModel.WellFormedMatchesOnePair | src/models/like.model.js:4-22 | a like the handlers create is on exactly one (target, user) pair |
| Guards.SelectToken | src/middlewares/auth.middleware.js:11-13 | the accessToken cookie when it is truthy, otherwise the Authorization header with its first "Bearer " replaced by "" (the header unchanged when it has none), otherwise nothing |
| Guards.SelectBearerToken | src/middlewares/auth.middleware.js:11-13 | with no usable cookie, the header "Bearer t" yields exactly t |
| Guards.AccessDenied | src/middlewares/auth.middleware.js:39-42 | every failure in verifyJWT is rethrown as a 401 that keeps a truthy message |
| Guards.VerifyJwt | src/middlewares/auth.middleware.js:8-43 | succeeds exactly when a token is sent, verifies under the access secret and names a stored user, who is then returned without password or refresh token; every failure is a 401 and nothing else is thrown |
| Guards.VerifyIssuedAccessToken | src/middlewares/auth.middleware.js:8-43 | an access token signed for a stored user and sent as a bearer header identifies that user |
| Guards.IsBlogOwner | src/middlewares/isOwner.middleware.js:5-19 | 404 exactly when no blog has the permalink; passes exactly when the caller is the author, handing on that blog's id; a 403 means the blog exists under another author; no role is consulted |
| Guards.IsAdmin | src/middlewares/isAdmin.middleware.js:6-11 | passes exactly when the stored caller's role is admin; a caller no longer stored is a TypeError; any other role is a 401 with a null message and the text in errors |
| UserController.TokensFor | src/controllers/user.controller.js:10-30 | the access token signs the access claims under the access secret, the refresh token signs the refresh claims under the refresh secret |
| UserController.GenerateTokens | src/controllers/user.controller.js:10-30 | signs both tokens and replaces the stored refresh token, changing nothing else; an unknown user is a 500 |
| UserController.IncomingRefreshToken | src/controllers/user.controller.js:172 | the refresh token cookie when it is truthy, otherwise the body's |
| UserController.RefreshDenied | src/controllers/user.controller.js:205-208 | every failure in refreshAccessToken is a 401 that keeps a truthy message |
| UserController.CheckRefresh | src/controllers/user.controller.js:170-209 | succeeds only for a token that verifies under the refresh secret, names a stored user and equals the token that user holds; a verified token other than the held one is refused as expired or used; every failure is a 401 |
| UserController.IssuedRefreshTokenAccepted | src/controllers/user.controller.js:170-209 | the refresh token last issued to a user is accepted |
| UserController.RotatedTokenRejected | src/controllers/user.controller.js:170-209 | after a refresh rotates the token, presenting the previous one is refused as expired or used |
| UserController.LoggedOutCannotRefresh | src/controllers/user.controller.js:155-209 | a user without a stored refresh token cannot refresh, whatever token is presented |
| UserController.RefreshAccessToken | src/controllers/user.controller.js:170-209 | an accepted refresh issues new tokens and rotates the stored one; any refusal is a 401 and changes nothing |
| UserController.LogoutUser | src/controllers/user.controller.js:155-168 | clears exactly the caller's refresh token; the response has status 200, the empty object as message and the text in errors |
| UserController.RegisteredUser | src/controllers/user.controller.js:79-87 | the stored user has the username and email through `toLowerCase`, the cast number, the digest of the password, the reader role, no refresh token, and the uploaded avatar and cover image ("" when none) |
| UserController.Registration | src/controllers/user.controller.js:32-105 | a blank field is a 400; a number the Number path cannot cast is a cast error; a username, email or cast number in use is a 409, or a TypeError without an avatar file; no files object is a 400; a success stores the registered user, whose keys no other user holds; and conversely all fields sent and castable, no conflict, an uploaded avatar and free keys give success |
| UserController.RegistrationKeepsKeysUnique | src/controllers/user.controller.js:32-105 | a successful registration keeps usernames, emails and numbers unique |
| UserController.RegisterUser | src/controllers/user.controller.js:32-105 | stores the registered user under the next id and returns it without password or refresh token; a refusal changes nothing |
| UserController.LoginCheck | src/controllers/user.controller.js:107-131 | no password and no email is a 400; an uncastable number is a cast error; an empty number is cast to null and matches no user; no user with the cast number or the email is a 404; for the first such user, an absent password is a bcrypt error, a wrong one a 401, and a matching one a success naming that user |
| UserController.EmptyNumberLogsInByEmail | src/controllers/user.controller.js:117-131 | a login that sends `number: ""` together with a stored user's non-empty email and their password logs in the earliest user holding that email |
| UserController.LoginUser | src/controllers/user.controller.js:107-152 | a successful login issues tokens and stores the new refresh token; a refusal changes nothing |
| UserController.PasswordChangeCheck | src/controllers/user.controller.js:212-244 | an unknown caller is a 404; a new password that differs from the confirmation is a 401; then an absent old password is a bcrypt error, a wrong one a 401, and a matching one yields the new password's digest (the old digest when no new password was sent) |
| UserController.PasswordChangeTakesEffect | src/controllers/user.controller.js:212-244 | after a change the new password matches and a different old one no longer does |
| UserController.PasswordChange | src/controllers/user.controller.js:212-244 | stores the new digest for the caller only; a refusal changes nothing |
| UserController.UpdateAccountDetails | src/controllers/user.controller.js:255-283 | all four fields are required (400); an uncastable number is a cast error; an unknown caller yields null; a key another user holds is a duplicate-key error; otherwise exactly those fields are replaced as sent (the number cast), and the user is returned with its refresh token |
| LikeController.NewLike | src/controllers/like.controller.js:10-35 | the created like is on exactly the target and user given, and records the given blog author |
| LikeController.ExistingLike | src/controllers/like.controller.js:10-35 | the caller's like on the target, or None exactly when there is none |
| LikeController.Toggled | src/controllers/like.controller.js:10-35 | after a toggle the pair is liked exactly when it was not; every like on another pair is kept; the only new like is the created one |
| LikeController.ToggledKeepsOnePerPair | src/controllers/like.controller.js:10-35 | a toggle keeps at most one like per (target, user) pair |
| LikeController.ToggleTwiceAfterCreate | src/controllers/like.controller.js:10-35 | liking then unliking restores the like collection exactly |
| LikeController.ToggleTwiceAfterRemove | src/controllers/like.controller.js:10-35 | unliking then liking again restores which pairs are liked |
| LikeController.ToggleCreateCount | src/controllers/like.controller.js:37-51 | creating a like adds one to the count of the author it records and to no other |
| LikeController.ToggleRemoveCount | src/controllers/like.controller.js:37-51 | deleting a like takes one from the count of the author it recorded and from no other |
| LikeController.CommentToggleKeepsCounts | src/controllers/like.controller.js:53-78 | a comment-like toggle changes no author's count |
| LikeController.TotalAuthorLikes | src/controllers/like.controller.js:37-51 | the number of likes recording the caller as blog author, or undefined (not 0) when there are none |
| LikeController.Toggle | src/controllers/like.controller.js:10-78 | the like collection becomes the toggled one; a like is created exactly when the pair was not liked |
| LikeController.LikeBlog | src/controllers/like.controller.js:10-35 | an unknown permalink is a TypeError; otherwise the caller's like on the blog is toggled and the blog author's count moves by exactly one |
| LikeController.LikeComment | src/controllers/like.controller.js:53-78 | an unknown comment is a TypeError; otherwise the caller's like on it is toggled and no author's count changes |
| BlogController.AfterUnlinking | src/controllers/blog.controller.js:24-42 | the clean-up before a 400 throws a TypeError when either file list is missing |
| BlogController.PermalinkFor | src/controllers/blog.controller.js:43-51 | the slug of the sent permalink, or of the title when none is sent; when a blog already holds that slug, the slug followed by "-" and the timestamp, which keeps the slug as its prefix |
| BlogController.UploadAll | src/controllers/blog.controller.js:68-72 | the content image URLs, one per path in order, or None exactly when some upload fails |
| BlogController.UploadContentImages | src/controllers/blog.controller.js:68-72 | the upload loop collects exactly those URLs, or stops at the first failed upload |
| BlogController.BlogDataFor | src/controllers/blog.controller.js:74-85 | the blog data carries the fields sent, the permalink, the caller and the uploaded images; an isPublished value the schema cannot cast is a validation error |
| BlogController.Created | src/controllers/blog.controller.js:87 | Blog.create stores the new blog only under a permalink that no blog holds; missing required fields are a validation error |
| BlogController.BlogCreation | src/controllers/blog.controller.js:14-95 | a missing title, content or isPublished is a 400; a category that exists is a 400; a missing feature image is a 400; a created blog is pending, the caller's, not public, under a permalink that no blog held, and carries the uploaded images; and conversely the fields, no category, successful uploads, a castable isPublished and a free permalink give success |
| BlogController.CreateBlog | src/controllers/blog.controller.js:14-95 | stores the created blog under the next id; a refusal changes nothing |
| BlogController.PublishToggle | src/controllers/blog.controller.js:97-126 | only a boolean is accepted (400); a vanished blog is a 500 with a null message; only isPublished changes, and the blog is public afterwards exactly when it is approved and the flag is set |
| BlogController.TogglePublishStatus | src/controllers/blog.controller.js:97-126 | stores the toggled blog; a refusal changes nothing |
| BlogController.PatchFor | src/controllers/blog.controller.js:154-161 | the update sets exactly the truthy fields with their sent values, isPublished as the schema casts it, and a non-empty permalink; an isPublished the schema cannot cast is a cast error |
| BlogController.NewPermalink | src/controllers/blog.controller.js:141-144 | the slug of the sent permalink when it is truthy, and "" otherwise |
| BlogController.BlogUpdate | src/controllers/blog.controller.js:128-190 | no field is a 400; a permalink held by any blog, this one included, is a 409; an uncastable isPublished is a cast error; a missing blog is a 500 with a null message; otherwise the success is the stored blog with the patch applied: status pending, only the supplied fields changed |
| BlogController.UpdateWithoutPermalinkChecksEmpty | src/controllers/blog.controller.js:141-152 | with no permalink sent, the duplicate check looks for "", so an edit of other fields goes through and keeps the blog's permalink |
| BlogController.UpdateBlog | src/controllers/blog.controller.js:128-190 | stores the edited blog; a refusal changes nothing |
| BlogController.DeleteBlog | src/controllers/blog.controller.js:192-212 | releases the content images and then the feature image, and removes exactly that blog; with no blog data it throws and changes nothing |
| BlogController.ApprovalToggle | src/controllers/blog.controller.js:427-460 | the status is checked before the permalink (both 400); an unknown permalink yields null; the blog holding the permalink is returned with the decided status and nothing else changed |
| BlogController.ToggleApprovalStatus | src/controllers/blog.controller.js:427-460 | stores the reviewed blog; otherwise nothing changes |
| BlogController.PrivateBlogs | src/controllers/blog.controller.js:214-237 | exactly the caller's unpublished blogs |
| BlogController.BlogsWithStatus | src/controllers/blog.controller.js:325-401 | exactly the caller's blogs with the given status |
| BlogController.PublishedBlogs | src/controllers/blog.controller.js:403-425 | exactly the caller's published blogs, approved or not |
| BlogController.LiveBlogs | src/controllers/blog.controller.js:462-487 | exactly the caller's public blogs |
| BlogController.AllPublicBlogs | src/controllers/blog.controller.js:556-617 | exactly the approved and published blogs |
| BlogController.UserAllLiveBlogs | src/controllers/blog.controller.js:619-682 | only public blogs of the user with that username; all of them when the username is unique; empty when no user has it |
| BlogController.CreationLeavesPublicListing | src/controllers/blog.controller.js:556-617 | creating a blog leaves the public listing exactly as it was |
| BlogController.ApprovalDecidesListing | src/controllers/blog.controller.js:427-460 | after a decision the blog is publicly listed exactly when it was approved and is published |
| BlogController.ViewedBlog | src/controllers/blog.controller.js:498-535 | the first blog with the permalink whose author is still stored, or None when there is none |
| BlogController.ViewIgnoresModeration | src/controllers/blog.controller.js:498-535 | the view finds a blog whatever its status and isPublished |
| BlogController.ViewOfBlog | src/controllers/blog.controller.js:505-534 | the projected view carries the blog's id, permalink, title, content, images, views and creation time, and the author's name and avatar only |
| BlogController.FetchBlogByPermalink | src/controllers/blog.controller.js:489-554 | an empty permalink or no match is a 404; a match is returned as read and its views go up by exactly 1 |
| CommentController.CommentCreation | src/controllers/comment.controller.js:10-39 | blank content is a 400; an unknown permalink is a 400; a success records the blog and the caller and is pending |
| CommentController.BlogComment | src/controllers/comment.controller.js:10-39 | stores the new comment under the next id; a refusal changes nothing |
| CommentController.CommentEdit | src/controllers/comment.controller.js:56-80 | blank content is a 400; an unknown comment is a 400; only the content changes and the status is kept |
| CommentController.UpdateComment | src/controllers/comment.controller.js:56-80 | stores the edited comment; a refusal changes nothing |
| CommentController.DeleteComment | src/controllers/comment.controller.js:41-54 | an unknown comment is a 400; otherwise exactly that comment is removed and returned |
| CommentController.ApprovedCommentsOf | src/controllers/comment.controller.js:82-133 | exactly the blog's approved comments whose commenter is still stored |
| CommentController.BlogComments | src/controllers/comment.controller.js:82-133 | a 400 exactly when no blog has the permalink; otherwise the approved comments of the blog holding it, by stored users |
| CommentController.NewCommentHidden | src/controllers/comment.controller.js:82-133 | a new, pending comment does not change its blog's listing |
| CommentController.UserComments | src/controllers/comment.controller.js:135-176 | exactly the caller's comments, whatever their status |
| CommentController.UserCommentsWithStatus | src/controllers/comment.controller.js:177-262 | exactly the caller's comments with the given status |
| CommentController.AllComments | src/controllers/comment.controller.js:264-314 | a 400 exactly when the status is not one of the three names; otherwise the caller's comments with that status |
| CommentController.CommentStatusToggle | src/controllers/comment.controller.js:315-336 | a 400 exactly when the status is not one of the three names; an unknown comment yields null; a stored comment is returned with the decided status and nothing else changed |
| CommentController.ToggleCommentApprovalStatus | src/controllers/comment.controller.js:315-336 | stores the decided comment; otherwise nothing changes |
| CommentController.ApprovalShowsComment | src/controllers/comment.controller.js:82-133 | after a decision the comment shows on its blog exactly when it was approved and its commenter is stored |
| CategoryController.RewrittenBody | src/controllers/category.controller.js:10-67 | a missing or blank permalink in the body is replaced by the slug of the name; nothing else changes |
| CategoryController.Inserted | src/controllers/category.controller.js:10-67 | Category.create stores a pending category without a permalink only when it clashes with no unique index |
| CategoryController.UploadedImage | src/controllers/category.controller.js:10-67 | the image URL exactly when a file was sent and its upload succeeded |
| CategoryController.CategoryCreation | src/controllers/category.controller.js:10-67 | a blank name or description is a 400; a name or permalink in use is a 409, or a TypeError without a files object; a failed upload is a 500; a created category is pending, the caller's, without a permalink, and clashes with none; and conversely free keys and a non-empty uploaded image give that category |
| CategoryController.SecondCategoryRefused | src/models/category.model.js:8-16 | once a category without a permalink is stored, no category can be created |
| CategoryController.CreateCategory | src/controllers/category.controller.js:10-67 | stores the created category under the next id; a refusal changes nothing |
| Search.PrependNewest | src/controllers/search.controller.js:24 | a blog no older than any in a newest-first sequence may lead it |
| Search.HeadLeadsInsertion | src/controllers/search.controller.js:24 | the head of a newest-first sequence is no older than what insertion places after it |
| Search.InsertNewest | src/controllers/search.controller.js:24 | inserting into a newest-first sequence keeps it newest-first and adds exactly that blog |
| Search.SortNewestFirst | src/controllers/search.controller.js:24 | `$sort: { createdAt: -1 }` returns the same blogs, newest first |
| Search.SearchBlog | src/controllers/search.controller.js:6-31 | a missing or blank query is exactly the 400 case; otherwise HTTP 200 with exactly the public blogs whose title or content matches the trimmed query, newest first; the envelope's code is 404 exactly when there are none |

## Left out

- updateBlogFeatureImage, updateBlogContentImage, updateUserAvatar, updateCoverImage and getCurrentUser are not modelled. They only replace a stored image URL or echo the caller, and they do not touch moderation or access.
- The promotion of a reader to author after createBlog is left out. `User.updateOne({ role: "author" })` has no filter, so it updates an arbitrary user and does not change which blog is created.
- Pagination, the `$lookup` joins' projections and response envelopes (ApiResponse, cookies, HTTP headers) are left out. Listings return the whole match in natural order.
- Routes, the application bootstrap, the database connection, multer's disk storage and the Cloudinary configuration are not part of this model.
- Request bodies are modelled as absent-or-string fields (`isPublished` as a boolean or string). Arrays, numbers and objects sent in place of strings are not modelled.
- ObjectId casting of ids is left out: an id is a natural number, so a malformed id in a URL cannot be expressed.
- bcrypt's salt and cost, JWT expiry and issued-at times, and regular-expression semantics are opaque parameters. An invalid regular expression in a search query is not modelled.
- Concurrency between requests is left out: each handler runs atomically on the store.
- `destroyImageOnCloudinary` is imported by deleteBlog but not exported by src/utils/cloudinary.js. DeleteBlog models the intended release of the images, returned as a list, rather than a module that fails to load.
- No route in the repository mounts updateBlog, deleteBlog or togglePublishStatus. These handlers take as a parameter the blog id that isBlogOwner would hand on in `req.blog`.
- deleteBlog reads `req.blog_data`, which no guard sets. The model takes it as an optional parameter, and absent means a TypeError.
- PasswordChange: the un-awaited `save()` is modelled as completing before the response. With newPassword absent, the pre-save hook's `bcrypt.hash(undefined, 8)` rejects. Nothing awaits or catches that rejection, and no handler for unhandled rejections is installed, so the server process exits after the response is sent. The model returns `Ok(Pass)` with the store unchanged and does not represent the exit.
- SearchBlog: `req.query.q` given as an array, whose `trim` is missing, is not modelled.
- `toLowerCase` is the parameter `lower`: Unicode case mapping is not modelled, so the model states only that the stored username and email are its result.
- JavaScript's `Number` conversion inside the cast of the `number` path is the parameter `castNumber` (None when the result is not a number); its parsing rules are not modelled. The empty string's cast to null is modelled (`UserModel.CastNumber`).
