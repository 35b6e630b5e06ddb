# BlogBackend in Dafny

This project models the REST back end of a small blog. Users register and log in. They
write posts with an optional uploaded image, like and unlike posts, and comment on them.
The model covers four things. The first is the three stored collections: users, posts
and comments. The second is the authentication middleware, which turns an
`Authorization` header into the caller's id. The third is every route handler in
`Routes/posts.routes.js`, `Routes/users.routes.js` and `Routes/comments.routes.js`. The
fourth is the schema behaviour the handlers depend on: the trim setters, the defaults,
the validators on save and the unique email index.

Layout, one module per file:

- `common.dfy` (`Common`) defines the basics:
  - ids, `Option` and the handler answer `Outcome` (a status with a body, or a status with a message);
  - JavaScript truthiness of a body string;
  - the store's sequence operations: first match, filter and delete at a position.
- `models.dfy` (`Models`) declares the user, post and comment records. It also has
  `String.prototype.trim` over ECMAScript white space, the documents that `new User` and
  `Post.create` build, the user schema's validators and the lookups by id.
- `auth.dfy` (`Auth`) is the middleware: strip one `Bearer ` prefix, verify, then call
  the next handler or answer 401.
- `ordering.dfy` (`Ordering`) is `.sort({ createdAt: -1 })`, written as an insertion sort.
  It is proved sorted and a permutation of its input.
- `post_views.dfy` (`PostViews`) holds the read-only post routes:
  - `attachComments`, allPosts, paginationPost, search, singlePost and user/:userId.
- `posts.dfy` (`Posts`) is the post collection, a class with createPost, updatePost, like,
  unlike and delete.
- `users.dfy` (`Users`) covers the user routes:
  - registration validation, login, and the password-free reads;
  - the loop that builds the allow-listed `updates` object, and the semantics of `findByIdAndUpdate`;
  - the user collection, a class with register, UpdateProfile, profilePicture, update/:id and delete/:id.
- `comments.dfy` (`Comments`) is the comment collection, a class with add and delete, plus
  that file's own `attachComments`.

Collections are sequences in insertion order. The model takes that as the store's
natural order; the store itself does not promise one. Search, user/:userId and the users
list have no sort, and they answer in that order. Each
collection hands out ids from a counter, so no two documents share an id. The mutating
handlers are methods of the collection classes. For every outcome, each method states
the answer and the exact new contents, and keeps the collection's invariant:

- distinct ids below the counter;
- duplicate-free likes lists;
- unique emails.

The operations the project does not see become function parameters:

- token verification and token signing;
- password hashing and password comparison;
- the e-mail format check;
- the image uploader.

The clock becomes a `now` parameter. The caller is the id the middleware stored in `req.user`.

Behaviour the model takes from the code, some of which a reader might not expect:

- Adding a comment does not check that the post exists.
- Creating a post does not check that the author exists.
- Deleting a comment has no ownership check.
- Deleting a user or a post leaves that user's or post's comments and likes in place.
- The schema's `trim` setter applies to saved documents, to query filters and to
  `findByIdAndUpdate` updates. So registration and login look the email up trimmed, and
  an update stores trimmed values.
- Validators do not run on `findByIdAndUpdate`. An update whose username is only white
  space therefore stores an empty username (`Users.BlankUsernameUpdateBreaksSchema`).
- An update to an email another user already has fails with the unique index's
  duplicate-key error. It is answered 400 and nothing changes.
- A whitespace-only username passes the route's `notEmpty` check. It is trimmed to ""
  and then fails the schema on save, which is answered 500 with no user created.
- profilePicture answers 200 with the new URL even when the caller's document no longer
  exists. In that case nothing is stored.
- paginationPost:
  - `parseInt(x) || default` turns 0 and unparsable values into the default;
  - a negative skip makes the store fail, answered 500;
  - a negative limit is taken as its absolute value;
  - `totalPages` is `Math.ceil(total / limit)` for negative limits too.
- The two `attachComments` helpers are the same except for the author fields they
  populate. The posts file populates the username and the profile picture, the comments
  file only the username.

## Model

| member | source | states |
|---|---|---|
| Models.Trim | modules/user.js:8 | the result is a slice of the input with only white space outside it, and has no white space at either end; an already trimmed string is unchanged |
| Models.SatisfiesUserSchema | modules/user.js:5-20 | the validators `save` runs: username, email and password are required (non-empty), and the stored password has at least 6 characters |
| Models.EmailsUnique | modules/user.js:13 | the unique index: no two users share an email |
| Models.NewUser | modules/user.js:4-34 | a new user document stores username and email trimmed, the given password hash, the default picture, an empty bio and the creation time |
| Models.NewPost | modules/postes.js:3-28 | a new post keeps the given fields, starts with no likes and no comment ids, and is stamped with the creation time |
| Models.UserIndex | Routes/users.routes.js:72 | `findById` on users: the position of a user with the id, or none exactly when no user has it |
| Models.PostIndex | Routes/posts.routes.js:126 | `findById` on posts: the position of a post with the id, or none exactly when no post has it |
| Models.CommentIndex | Routes/comments.routes.js:40 | `findByIdAndDelete` lookup: the position of a comment with the id, or none exactly when no comment has it |
| Auth.CleanToken | middleware/auth.js:12 | a header starting with `Bearer ` yields what follows the prefix; any other header is the token itself |
| Auth.CleanTokenOfBearer | middleware/auth.js:12 | prefixing a token with `Bearer ` and cleaning it gives the token back |
| Auth.CleanTokenStripsOnce | middleware/auth.js:12 | only one prefix is removed: `Bearer Bearer t` yields `Bearer t` |
| Auth.Authenticate | middleware/auth.js:3-25 | a missing or empty header gives 401 no-token; a header whose cleaned token fails verification gives 401 invalid-token; otherwise next is called with exactly the decoded claims |
| Auth.BearerAndRawAgree | middleware/auth.js:12-15 | for a non-empty token `t` that does not itself start with `Bearer `, a `Bearer t` header and the raw token `t` authenticate identically |
| Ordering.SortNewest | Routes/posts.routes.js:21-23 | the sorted list has the same elements with the same multiplicities, and timestamps never increase along it |
| PostViews.Author | Routes/posts.routes.js:13 | a comment's author is populated exactly when the user exists, with that user's id and username, and, exactly when the picture is requested, that user's own profile picture |
| PostViews.PostComments | Routes/posts.routes.js:12-14 | the comments of a post: exactly those with its postId, each as often as stored, newest first |
| PostViews.Attach | Routes/posts.routes.js:11-16 | the view keeps the post, carries exactly its comments newest first, and populates each comment's author |
| PostViews.AttachComments | Routes/posts.routes.js:11-16 | the post with exactly its comments, each as often as stored, newest first; each comment's author is populated from that user's record (id, username and picture) exactly when the user exists |
| PostViews.AttachAll | Routes/posts.routes.js:25 | one view per post, in order, each being that post with its comments attached |
| PostViews.PostsOfAttachAll | Routes/posts.routes.js:25 | attaching comments shows the same posts in the same order |
| PostViews.AllPosts | Routes/posts.routes.js:19-31 | every stored post exactly once, newest first, each with its comments attached |
| PostViews.SinglePost | Routes/posts.routes.js:82-92 | 404 "Post not found" exactly when no post has the id; otherwise the stored post with that id, with its comments |
| PostViews.PostsByAuthor | Routes/posts.routes.js:228 | exactly the posts whose author is the given user, each as often as the store holds it (once per stored document) |
| PostViews.UserPosts | Routes/posts.routes.js:226-237 | exactly the author's posts in natural order, each with its comments attached |
| PostViews.PageParam | Routes/posts.routes.js:37-38 | `parseInt(x)` or the default: an absent, unparsable or zero value gives the default, any other integer is kept, and the result is never zero |
| PostViews.CeilDiv | Routes/posts.routes.js:53 | `Math.ceil(n / d)`: the least r with n <= r*d for a positive d, and the matching bound for a negative one |
| PostViews.Window | Routes/posts.routes.js:43-44 | `.skip(s).limit(c)`: at most c elements, the ones from position s on |
| PostViews.Paginate | Routes/posts.routes.js:35-59 | 500 exactly when (page-1)*limit is negative; otherwise the page number, the total, the page count as the ceiling of total/limit, and the page's entries as the newest-first listing from position skip |
| PostViews.PaginationOfTwentyFive | Routes/posts.routes.js:35-59 | with 25 posts and limit 10, page 1 holds 10 posts, page 3 holds 5, and there are 3 pages |
| PostViews.PaginationDefaults | Routes/posts.routes.js:37-38 | absent or zero page and limit behave as page 1 with limit 10 |
| PostViews.Skip | Routes/posts.routes.js:39 | `skip = (page - 1) * limit` |
| PostViews.PageOfPosition | Routes/posts.routes.js:39 | position j lies on page j/limit+1, whose skip is j minus its offset j%limit |
| PostViews.PageEntry | Routes/posts.routes.js:39-48 | on a page within range, offset k shows the post at position skip+k of the newest-first listing |
| PostViews.PagesCoverListing | Routes/posts.routes.js:35-59 | every post of the listing appears on some page, at a known position |
| PostViews.Lower | Routes/posts.routes.js:69-70 | case folding keeps the length and folds each character on its own |
| PostViews.ContainsIgnoringCaseIff | Routes/posts.routes.js:67-71 | the unanchored case-insensitive match holds exactly when the query occurs, folded, at some position of the text |
| PostViews.ContainsIgnoringCase | Routes/posts.routes.js:69-70 | the unanchored case-insensitive match, tried at each starting position in turn |
| PostViews.MatchesQuery | Routes/posts.routes.js:67-71 | the `$or` filter: the title or the description is present and contains the query |
| PostViews.MatchingPosts | Routes/posts.routes.js:67-72 | exactly the stored posts whose title or description contains the query, each as often as the store holds it |
| PostViews.Search | Routes/posts.routes.js:62-79 | 400 "Query parameter is required" exactly when the query is absent or empty; otherwise (every non-empty query) a success holding exactly the matching posts in natural order, each with its comments |
| PostViews.CatOccurs | Routes/posts.routes.js:67-71 | "cat" is found, ignoring case, in "Cats are great" and in "I love cats" |
| PostViews.CatAbsent | Routes/posts.routes.js:67-71 | "cat" is found in neither "Dogs" nor "rule" |
| PostViews.SearchForCat | Routes/posts.routes.js:67-71 | the query "cat" matches a post by its title and a post by its description, and not a post with neither |
| Posts.WithoutLiker | Routes/posts.routes.js:191-193 | the caller no longer likes the post, and every other liker is kept as often as before |
| Posts.WithoutLikerKeepsOrder | Routes/posts.routes.js:191-193 | removing a liker keeps the order of the others: it distributes over concatenation |
| Posts.WithoutLikerShrinksByOne | Routes/posts.routes.js:187-193 | unliking a duplicate-free list that holds the caller removes exactly one entry |
| Posts.WithoutLikerKeepsNoDuplicates | Routes/posts.routes.js:191-193 | removing a liker keeps the likes list duplicate-free |
| Posts.LikeKeepsNoDuplicates | Routes/posts.routes.js:163-167 | appending a liker who was not in the list keeps it duplicate-free |
| Posts.UnlikeUndoesLike | Routes/posts.routes.js:158-205 | unliking right after liking restores the likes list |
| Posts.EditPost | Routes/posts.routes.js:133-144 | a truthy title or description replaces the old one; an uploaded image replaces the image; id, author, likes, comments and time are unchanged |
| Posts.UploadFailure | Routes/posts.routes.js:119 | a failed upload answers 400 with the error's message, or "Failed to upload image" when that is empty |
| Posts.UploadedImage | Routes/posts.routes.js:100-107 | an image URL is stored exactly when a file was sent, and it is the uploader's URL |
| Posts.CreatedPostIsFound | Routes/posts.routes.js:109-116 | a post stored under a fresh id is what singlePost returns for that id |
| Posts.PostCollection.CreatePost | Routes/posts.routes.js:95-121 | a failed upload answers 400 and changes nothing; otherwise exactly one new post by the caller is appended with a fresh id and answered 201 |
| Posts.PostCollection.UpdatePost | Routes/posts.routes.js:124-155 | 404 for an unknown post, then 403 for a non-author, then 400 with the uploader's own message for a failed upload, each changing nothing; otherwise only that post is replaced by its edit |
| Posts.PostCollection.Like | Routes/posts.routes.js:158-178 | 404 for an unknown post, 400 when the caller already likes it, each changing nothing; otherwise the caller is appended to that post's likes and nothing else changes |
| Posts.PostCollection.Unlike | Routes/posts.routes.js:182-205 | 404 for an unknown post, 400 when the caller does not like it, each changing nothing; otherwise the caller is removed from that post's likes and nothing else changes |
| Posts.PostCollection.DeletePost | Routes/posts.routes.js:209-223 | 404 for an unknown post, then 403 for a non-author, each changing nothing; otherwise exactly that post is removed |
| Users.RegistrationErrors | Routes/users.routes.js:14-21 | no errors exactly when the username is non-empty, the email is well formed and the password has at least 8 characters; each message is present exactly when its check fails |
| Users.NewUserSchemaFailure | Routes/users.routes.js:29-31 | a new user fails the schema exactly when its trimmed username or email is empty or the stored hash is shorter than 6 characters |
| Users.BlankUsernamePassesRouteFailsSchema | Routes/users.routes.js:15-31 | a whitespace-only username passes the route's validators but fails the schema on save |
| Users.UserWithEmail | Routes/users.routes.js:26 | `findOne({ email })`: a user whose email is the trimmed email, or none exactly when no user has it |
| Users.Login | Routes/users.routes.js:42-67 | 404 exactly when no user has the email; otherwise 401 exactly when the password does not match the stored hash; a token, the id and the email of that user only on a match |
| Users.Public | Routes/users.routes.js:72 | `.select("-password")`: every field of the user except the password |
| Users.PublicForgetsOnlyPassword | Routes/users.routes.js:72 | `.select("-password")` drops the password and nothing else |
| Users.PublicById | Routes/users.routes.js:141-149 | 404 "User not found" exactly when no user has the id; otherwise that user without the password (the profile route applies it to the caller's id, users.routes.js lines 70-78) |
| Users.ListUsers | Routes/users.routes.js:131-138 | every user, in natural order, each without the password |
| Users.AllowedUpdates | Routes/users.routes.js:83-88 | the update holds exactly the allowed keys whose body value is truthy, with those values |
| Users.CollectUpdates | Routes/users.routes.js:86-88 | the `forEach` loop builds exactly the allowed-and-truthy update |
| Users.ApplyUpdates | Routes/users.routes.js:90-92 | a field changes only when its key is in the update; id and creation time never change; username, email and bio are stored as the trimmed supplied value |
| Users.FindByIdAndUpdate | Routes/users.routes.js:90-95 | 404 for an unknown user, 400 when the new email belongs to another user, each changing nothing; otherwise a success in which only that user is updated and answered without the password; email uniqueness is kept |
| Users.ProfileUpdateKeepsCredentials | Routes/users.routes.js:83-92 | UpdateProfile never changes a password or a profile picture |
| Users.AccountUpdateKeepsBio | Routes/users.routes.js:158-164 | update/:id never changes a bio, a password or a profile picture |
| Users.EmptyValuesChangeNothing | Routes/users.routes.js:86-88 | a body whose values are all empty leaves every user as it was |
| Users.BlankUsernameUpdateBreaksSchema | Routes/users.routes.js:86-92 | a whitespace-only username is accepted by UpdateProfile and stored as "", which the schema would refuse on save |
| Users.UserCollection.Register | Routes/users.routes.js:12-39 | validation errors give 400 with the messages; an email in use gives 400; a document failing the schema gives 500; each changes nothing; otherwise exactly one new user with the hashed password is appended and its token returned |
| Users.AppendKeepsUsersValid | Routes/users.routes.js:26-31 | appending a user under the counter's id whose email nobody has keeps ids distinct and emails unique |
| Users.UserCollection.UpdateProfile | Routes/users.routes.js:81-101 | 404 for a missing caller and 400 for an email another user has, each changing nothing; otherwise 200 with the caller's document patched with the trimmed truthy username, email and bio, as FindByIdAndUpdate states |
| Users.UserCollection.UpdateById | Routes/users.routes.js:152-171 | 403 "Unauthorized" with nothing changed unless the caller is that user; otherwise as FindByIdAndUpdate with the trimmed truthy username and email only (404, 400 on an email clash, else 200 and that user patched) |
| Users.UserCollection.ProfilePicture | Routes/users.routes.js:104-127 | 400 without a file or with the uploader's message when the upload fails, changing nothing; a successful upload is always answered 200 with the URL, stored as the caller's picture when the caller exists |
| Users.UserCollection.DeleteById | Routes/users.routes.js:174-187 | 403 unless the caller is that user, then 404 for an unknown user, each changing nothing; otherwise exactly that user is removed |
| Comments.AttachUsernames | Routes/comments.routes.js:7-13 | the post with exactly its comments newest first, each comment's author populated from that user's record with the username only (no picture) exactly when the user exists |
| Comments.AddedCommentIsListed | Routes/comments.routes.js:16-35 | an added comment is among its post's attached comments |
| Comments.DeletedCommentIsGone | Routes/comments.routes.js:38-49 | when comment ids are distinct (as the collection's invariant keeps them), a deleted comment is attached to no post any more |
| Comments.CommentCollection.AddComment | Routes/comments.routes.js:16-35 | exactly one comment by the caller on the named post is appended with a fresh id and answered with its author's username and picture |
| Comments.CommentCollection.DeleteComment | Routes/comments.routes.js:38-49 | 404 "Comment not found" with nothing changed when no comment has the id; otherwise exactly that comment is removed and no comment with the id remains |

## Left out

- PostViews.Search: the query is matched as a literal substring with ASCII-only case folding. MongoDB's `$regex` with the `i` option treats the query as a regular expression and folds Unicode case. Regular-expression semantics are outside the model.
- Users.UserCollection.Register: a document that fails the schema is answered with the message prefix "User validation failed". The store's full message names the failing paths.
- Users.FindByIdAndUpdate: the duplicate-key answer carries the fixed text "E11000 duplicate key error", not the driver's full message.
- Populating a post's `authorId` (different fields on different routes) is left out. Views carry the author's id only. Populating comment authors is modelled.
- Like and unlike re-fetch the post with `populate("comments.userId", …)`. Since `comments` holds comment ids, this is a no-op. The handlers answer the saved post, without the populated author.
- `modules/comment.js` is not part of this model. The comment record is taken from how the handlers use it: text, author, post and time. No comment schema validation is modelled.
- Ids are naturals. Malformed ObjectId strings in route parameters, and the cast errors they cause (400 or 500 depending on the route), are not modelled.
- Failures of the store or the network are not modelled, nor are the 500 and 400 catch paths they reach. The only exceptions are the ones named above: negative skip, schema failure, duplicate key and upload failure.
- How a multipart file is built into a base64 data URI is inside the uploader parameter. So are the `post_<Date.now()>` file name and ImageKit's credentials.
- bcrypt, JWT signing and verification (its secret and its one-hour expiry) and express-validator's `isEmail` are opaque function parameters.
- `console.log` and `console.error` output is left out.
- `Promise.all` concurrency is left out, and so are races between concurrent requests. Each handler runs atomically.
- The server setup (`index.js`), `test.js` and the multer configuration are not part of this model.
- Body values are taken as strings. Non-string JSON values (numbers, arrays, objects) are not modelled.
- Users.RegistrationErrors: the password length counts every Unicode scalar value. express-validator's `isLength` counts code points too, but it does not count the variation selectors U+FE0E and U+FE0F. A password padded with them can reach 8 in the model and stay below 8 in the route.
- Models.SatisfiesUserSchema: the hash length counts Unicode scalar values, while Mongoose's `minlength` counts UTF-16 code units. The two agree for the ASCII hashes bcrypt produces.
- PostViews.Paginate / PostViews.PagesCoverListing: posts with equal `createdAt` are put in one fixed order, insertion order, the same on every request. MongoDB leaves the order of tied sort keys unspecified, and the order can differ from one query to the next. With skip and limit, a tied post can then be missed or shown twice across pages. The model does not capture that. The same holds for the insertion order taken as the natural order of unsorted reads.
