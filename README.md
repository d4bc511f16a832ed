# MERN blog: request decisions and client session, in Dafny

This project models the decision logic of a small blog built on MongoDB,
Express, React and Node. On the server side it covers:

- the JWT authentication middleware;
- the express-validator chains and the middleware that reports their errors;
- the post, comment, category and auth handlers;
- the mongoose schemas they save through (trimming setters, `required`,
  length and pattern validators, unique indexes, the password-hashing pre-save
  hook);
- the central error handler.

On the client side it covers:

- the session kept by `AuthContext` and mirrored into `localStorage`;
- the request interceptor that attaches the bearer token;
- the error-message selector every API call falls back on.

The four MongoDB collections are the fields of one `Store.Db` object, each a
sequence in insertion order. The handlers reassign those fields. Each route is
a method proved against a pure `...Outcome` function. That function gives the
reply (status and JSON body) and the collection the route leaves. The
properties of the routes are lemmas about those functions. Middleware
(`AuthMiddleware.Protect`, `PostValidator.HandleValidationErrors`) is
composed in the same order as the router composes it.

Collaborators whose internals are not modelled are parameters, bundled in
`Collaborators.Env`:

- bcrypt;
- jsonwebtoken;
- `ObjectId.isValid` (what mongoose can cast to an ObjectId), the ObjectId such a value casts to (`castId`), and the message of mongoose's CastError;
- express-validator's `isEmail` and `normalizeEmail`;
- `NODE_ENV`.

The facts the server relies on them for are stated once, in
`Collaborators.Sound`, and only the lemmas that need those facts assume it.
Time is a parameter (`now`), and so are the ids the database would assign.
An id is an ObjectId as its `toString()` renders it. Every id a request
sends is cast first, as mongoose does, so any spelling of a stored ObjectId
(upper-case hexadecimal, say) finds the document.
On the client, JSON is a parameter (`AuthContext.Json`), and its round trip
is assumed only where it is needed.

String lengths are counted the way each library counts them. Mongoose's
`minlength` and `maxlength` count UTF-16 code units (`Base.Utf16Length`).
express-validator's `isLength` counts code points less the variation
selectors U+FE0E and U+FE0F (`Base.ValidatorLength`).

## Model

| member | source | states |
|---|---|---|
| AuthMiddleware.ParseAuthorization | server/middleware/authMiddleware.js:12-18 | the header is refused exactly when absent or not starting with "Bearer" (no space required); a token is present exactly when the header contains a space, and it contains no space |
| AuthMiddleware.BearerRoundTrip | client/src/apiService.js:27 | the header `Bearer <token>` the client builds parses back to the same token whenever the token has no space |
| AuthMiddleware.VerifyToken | server/middleware/authMiddleware.js:21 | an undefined or empty token never verifies; any other token verifies to what jwt.verify answers |
| AuthMiddleware.Authenticate | server/middleware/authMiddleware.js:8-35 | 401 'Not authorized, no token' exactly for a missing Bearer header; any other refusal is 'token failed or expired'; acceptance exactly when the token verifies to a castable id; the attached user is the stored user with that id, without password, or null when none |
| AuthMiddleware.Protect | server/middleware/authMiddleware.js:24-34 | on acceptance next() with req.user set to the authenticated user; otherwise the 401 reply and req.user untouched |
| ErrorHandler.HandleError | server/middleware/errorHandler.js:2-27 | ValidationError gives 400 with the field messages joined by "; "; a CastError of kind ObjectId gives 400 'Invalid resource ID format.'; otherwise 500 when the status was still 200, with the error's message or the default; the stack appears exactly outside production |
| ErrorHandler.HandledErrorIsClientVisible | server/middleware/errorHandler.js:7-26 | every reply of the handler is an error status (at least 400) with a non-empty message |
| Collaborators.PrefixedMongoId | server/middleware/postValidator.js:22-24 | isMongoId (isHexadecimal and 24 long) accepts "0x" followed by 22 hexadecimal digits, which is not 24 hexadecimal digits |
| PostValidator.CreatePostErrors | server/middleware/postValidator.js:13-28 | no errors exactly when title, content and category are present and within the rules; errors come in chain order and name only those three fields |
| PostValidator.UpdatePostErrors | server/middleware/postValidator.js:31-45 | no errors exactly when every present field meets its rule; absent fields are skipped |
| PostValidator.CreateRulesImplyUpdateRules | server/middleware/postValidator.js:13-45 | a body that passes the create chains passes the update chains |
| PostValidator.UpdateErrorsAreCreateErrors | server/middleware/postValidator.js:13-45 | every error the update chains report for a complete body the create chains report too |
| PostValidator.MissingTitleReportsTwice | server/middleware/postValidator.js:14-16 | an absent title reports both 'Title is required' and the length message, since the chain does not bail |
| PostValidator.HandleValidationErrors | server/middleware/postValidator.js:4-10 | next() exactly when there are no errors, else 400 with { errors } |
| PostModel.TitleMessage | server/models/Post.js:4-10 | the title path accepts exactly the lengths 5 to 200 |
| PostModel.PostSchemaMessages | server/models/Post.js:3-26 | no validator message exactly when the title is within bounds and content, category (unless it failed to cast) and owner are present |
| PostModel.NewPost | server/models/Post.js:3-35 | a new post's owner is the given user whatever the body says; a body _id is kept, else the default id; an absent featuredImage becomes 'placeholder.jpg'; createdAt is the body's or now, and updatedAt equals createdAt |
| PostModel.NewPostConforms | server/models/Post.js:4-26 | a new post that validates satisfies the stored-post invariant (trimmed title within bounds) |
| PostModel.PostUpdateMessages | server/models/Post.js:4-26 | under runValidators, no error exactly when every field the body sets meets its validator |
| PostModel.ApplyPostUpdate | server/routes/postRoutes.js:79-85 | every field the body sets is written (title trimmed), every other field kept, id and createdAt unchanged, updatedAt now |
| PostModel.UpdatePreservesConformance | server/models/Post.js:4-26 | an update that passes the update validators keeps a stored post conforming |
| CommentModel.NewComment | server/models/Comment.js:5-28 | the new comment has the given author, post and creation time |
| CommentModel.NewCommentConforms | server/models/Comment.js:5-28 | a new comment that validates satisfies the stored-comment invariant |
| CategoryModel.CategorySchemaMessages | server/models/Category.js:3-20 | no ValidationError exactly when the trimmed name is non-empty and at most 50 long |
| CategoryModel.NewCategoryConforms | server/models/Category.js:3-20 | a new category that validates satisfies the stored-category invariant |
| UserModel.UserSchemaMessages | server/models/User.js:4-27 | no ValidationError exactly when username is non-empty and at most 30 long, email matches /.+@.+\..+/ and the password has at least 6 units |
| UserModel.UserDocument.constructor | server/models/User.js:4-22 | the username is trimmed by the setter, email and password kept as given, and the password counts as modified |
| UserModel.UserDocument.ComparePassword | server/models/User.js:48-50 | with a sound bcrypt, a stored hash of a password accepts exactly that password |
| UserModel.UserDocument.HashPasswordBeforeSave | server/models/User.js:31-45 | a modified password is replaced by its hash and an unmodified one kept |
| UserModel.PasswordAcceptedAfterEachSave | server/models/User.js:31-50 | with a sound bcrypt, a new document's password, hashed by the pre-save hook, is accepted by comparePassword exactly for the original password, and still after a second save that did not modify it (no double hash) |
| Store.FindPost | server/routes/postRoutes.js:67 | the position of the first post holding the ObjectId, or none exactly when no post holds it; the routes pass the ObjectId the request's id casts to |
| Store.FindUser | server/middleware/authMiddleware.js:21 | the position of a user with the id, or none exactly when no user has it |
| Store.FindUserByEmail | server/controllers/authController.js:63 | a user whose email is the one sent, or none exactly when no stored email equals it (an absent email matches nobody) |
| Store.FindUserByEmailOrUsername | server/controllers/authController.js:30 | a user matching either the email or the username, or none exactly when no user matches either; the register routes pass the username trimmed, as the filter's setter does |
| PostRoutes.ListPosts | server/routes/postRoutes.js:9-19 | 200 with every stored post (as a multiset) ordered newest first |
| PostRoutes.GetPost | server/routes/postRoutes.js:22-39 | 400 for an uncastable id; otherwise 200 with the post holding the ObjectId the id casts to, whatever its spelling, exactly when one exists, and 404 when none does |
| PostRoutes.SaveMessages | server/routes/postRoutes.js:47-48 | save() fails exactly when the document cannot cast the body's category or _id or a validator fails; a category cast failure's message comes first |
| PostRoutes.CreateHandlerOutcome | server/routes/postRoutes.js:44-57 | a null req.user gives 500; with a user, any save message (a value mongoose cannot cast or a failing validator) gives 400 with the joined messages; a taken _id gives 500 with the duplicate-key message; only 201 changes the collection |
| PostRoutes.CreateOutcome | server/routes/postRoutes.js:44-57 | 401 when the middleware refuses, 400 with the chain errors when they fail, otherwise the handler's outcome; only a 201 changes the collection |
| PostRoutes.CreateStoresOwnedPost | server/routes/postRoutes.js:47-51 | a created post is appended once, owned by the authenticated user whatever the body says, with the body's content and trimmed title and the ObjectId its category casts to |
| PostRoutes.ValidCreateSucceeds | server/routes/postRoutes.js:44-57 | an authenticated body that passes the chains, casts, fits the schema's title bounds and has a free _id gives 201 and appends exactly the new post |
| PostRoutes.PrefixedCategoryFailsCast | server/routes/postRoutes.js:44-57 | a category that passes isMongoId but not the ObjectId cast gives 400 with the cast message first, not the chain's 'Invalid Category ID format' |
| PostRoutes.CreatePreservesValid | server/models/Post.js:3-35 | creating keeps unique ids and conforming posts |
| PostRoutes.UpdateHandlerOutcome | server/routes/postRoutes.js:62-92 | 400 for an uncastable id, 404 when no post holds the ObjectId it casts to (whatever its spelling), 403 when that post's owner is not the requester, only a 200 changes the collection |
| PostRoutes.UpdateOutcome | server/routes/postRoutes.js:62-92 | 401 from the middleware, 400 with the update chain's errors, otherwise the handler's outcome |
| PostRoutes.UpdateOnlyByOwner | server/routes/postRoutes.js:74-85 | the length never changes, other posts never change, and any change comes from the owner with 200 |
| PostRoutes.UpdateWritesBody | server/routes/postRoutes.js:79-85 | a successful update writes the body's fields into the post, including the ObjectId a body `user` casts to, so the owner can hand the post over |
| PostRoutes.OwnerCanUpdate | server/routes/postRoutes.js:62-92 | the owner's update of a stored post, with a body that passes the chains, casts and validates, gives 200 with the updated post, which replaces the stored one in place |
| PostRoutes.UpdatePreservesValid | server/routes/postRoutes.js:79-85 | updating keeps unique ids and conforming posts |
| PostRoutes.DeleteHandlerOutcome | server/routes/postRoutes.js:96-122 | 400 for an uncastable id, 404 when no post holds the ObjectId it casts to (whatever its spelling), 403 when that post's owner is not the requester; only 204 changes the collection |
| PostRoutes.DeleteOutcome | server/routes/postRoutes.js:96-122 | 401 from the middleware, otherwise the handler's outcome |
| PostRoutes.DeleteOnlyByOwner | server/routes/postRoutes.js:108-115 | a change removes exactly one post, owned by the requester, and keeps every other post |
| PostRoutes.OwnerCanDelete | server/routes/postRoutes.js:96-122 | the owner's delete of a stored post gives 204 with an empty body and removes exactly that post, the others kept in order |
| PostRoutes.DeleteRemovesId | server/routes/postRoutes.js:113-115 | after a successful delete no post has the id and the invariant still holds |
| PostRoutes.DeletePreservesValid | server/routes/postRoutes.js:96-122 | every delete request, whether answered 204 or refused, leaves unique ids and conforming posts |
| PostRoutes.SpellingsOfOneIdAgree | server/routes/postRoutes.js:67-113 | two castable spellings of one ObjectId give the same update outcome and the same delete outcome |
| PostRoutes.CreateHandler | server/routes/postRoutes.js:44-57 | the handler on the database gives the reply and collection of CreateHandlerOutcome and changes only the posts |
| PostRoutes.UpdateHandler | server/routes/postRoutes.js:62-92 | the handler on the database gives the reply and collection of UpdateHandlerOutcome and changes only the posts |
| PostRoutes.DeleteHandler | server/routes/postRoutes.js:96-122 | the handler on the database gives the reply and collection of DeleteHandlerOutcome and changes only the posts |
| PostRoutes.Create | server/routes/postRoutes.js:44-57 | the route on the database gives the reply and collection of CreateOutcome and keeps the database valid |
| PostRoutes.Update | server/routes/postRoutes.js:62-92 | the route on the database follows UpdateOutcome and keeps the database valid |
| PostRoutes.Delete | server/routes/postRoutes.js:96-122 | the route on the database follows DeleteOutcome and keeps the database valid |
| CommentController.CreateCommentHandlerOutcome | server/controllers/commentController.js:10-43 | 400 'Invalid Post ID' for an invalid id, 404 when no post holds the ObjectId postId casts to (whatever its spelling), any other failure 500 'Server error', only 201 changes the collection |
| CommentController.CreateCommentOutcome | server/routes/commentRoutes.js:13 | 401 from the middleware, otherwise the controller's outcome |
| CommentController.CreateCommentAddsOne | server/controllers/commentController.js:26-42 | a created comment is appended once with trimmed content, the authenticated author, the ObjectId postId casts to (held by a stored post) and the current time |
| CommentController.ValidCommentSucceeds | server/controllers/commentController.js:10-37 | an authenticated comment on a stored post, with content the schema accepts once trimmed and a new id, gives 201 and appends exactly that comment |
| CommentController.CreateCommentPreservesValid | server/models/Comment.js:5-28 | creating keeps unique ids and conforming comments |
| CommentController.CreateCommentHandler | server/controllers/commentController.js:10-43 | the controller on the database, req.user set, gives the reply and collection of CreateCommentHandlerOutcome and changes only the comments |
| CommentController.CreateComment | server/routes/commentRoutes.js:13 | the route on the database follows CreateCommentOutcome and keeps the database valid |
| CommentController.GetCommentsByPostId | server/controllers/commentController.js:48-63 | 400 for an invalid id; otherwise 200 with exactly the comments on the ObjectId the id casts to (as a multiset), oldest first |
| CommentController.SpellingsListSameComments | server/controllers/commentController.js:54 | two castable spellings of one ObjectId list the same comments |
| CommentController.CreatedCommentIsListed | server/controllers/commentController.js:10-63 | a comment just created is listed by getCommentsByPostId for the post id as it was sent |
| CategoryRoutes.ListCategories | server/routes/categoryRoutes.js:7-15 | 200 with the categories as stored |
| CategoryRoutes.CreateCategoryOutcome | server/routes/categoryRoutes.js:18-41 | only 201 or 400; an absent or empty name gives 'Category name is required'; a valid name already stored gives 'Category name already exists'; only 201 changes the collection |
| CategoryRoutes.CreateCategoryAddsOne | server/routes/categoryRoutes.js:27-31 | a created category is appended once with the trimmed name, which no stored category had |
| CategoryRoutes.NewNameSucceeds | server/routes/categoryRoutes.js:18-31 | a name whose trimmed value the schema accepts and that no stored category has (nor the new id) gives 201 and appends exactly the new category |
| CategoryRoutes.BlankNameFailsSchema | server/routes/categoryRoutes.js:23-25 | a name of only white space passes the route's own check and is refused by the schema's required validator |
| CategoryRoutes.CreateCategoryPreservesValid | server/models/Category.js:3-20 | creating keeps unique ids and names and conforming categories |
| CategoryRoutes.CreateCategory | server/routes/categoryRoutes.js:18-41 | the route on the database follows CreateCategoryOutcome and keeps the database valid |
| AuthController.CreateToken | server/controllers/authController.js:6-10 | with sound collaborators the token is a non-empty string without spaces |
| AuthController.TokenCarriesIdForOneDay | server/controllers/authController.js:6-10 | a token verifies to its id until one day after issue and not after; this is the jwt fact of Collaborators.Sound seen through generateToken, and the end-to-end statement is Flows.StoredTokenAuthenticates |
| AuthController.RegisterUserOutcome | server/controllers/authController.js:15-53 | 400 'Validation failed' with the errors; 400 'already exists' when a stored email equals the email or a stored username equals the username trimmed (the filter's `trim` setter); only 201 changes the collection |
| AuthController.RegisterAddsOne | server/controllers/authController.js:36-49 | a registration appends one user (trimmed username, email as sent, hashed password, new id) and answers it without password with a token for its id |
| AuthController.NewUserRegisters | server/controllers/authController.js:15-49 | with no validation errors, no stored user with the email, the trimmed username or the id, and a body the schema accepts, 201 appends exactly the new user with the hashed password and answers it with a token |
| AuthController.RegisterPreservesValid | server/models/User.js:4-27 | registering keeps the unique indexes on id, username and email and conforming users |
| AuthController.PaddedDuplicateUsernameExists | server/controllers/authController.js:30-33 | a username equal to a stored one once trimmed (User.js:9 trims filter values too) gets 400 'already exists' and leaves the users unchanged |
| AuthController.RegisterUser | server/controllers/authController.js:15-53 | on the database, through a UserDocument, the reply and users of RegisterUserOutcome, keeping the database valid |
| AuthController.LoginUser | server/controllers/authController.js:58-92 | 401 'User not found' for an unknown email; 200 exactly when the user exists, a password was sent and bcrypt accepts it, with that user and a token for it; otherwise 401 or 500 |
| AuthController.WrongPasswordIsRefused | server/controllers/authController.js:70-74 | with a sound bcrypt a wrong password gives 401 'Password incorrect' |
| AuthController.RegisterThenLogin | server/controllers/authController.js:15-92 | after registerUser stores a user, logging in with the email as stored and the same password succeeds for the new user and its token admits that user for a day |
| AuthRoutes.RegisterErrors | server/routes/authRoutes.js:7-16 | no errors exactly when the register rules hold; only the four chain messages on the three fields |
| AuthRoutes.SanitizeRegister | server/routes/authRoutes.js:11-13 | normalizeEmail rewrites a present email; other fields unchanged |
| AuthRoutes.RegisterRouteOutcome | server/routes/authRoutes.js:26 | a body that fails the chains gets 400 and changes nothing; a 201 stores the normalised email |
| AuthRoutes.PaddedDuplicateRefusedByRoute | server/routes/authRoutes.js:26 | a body the chains accept whose trimmed username is a stored one's is answered 400 'already exists' and nothing is stored, however it is padded |
| AuthRoutes.NewUserRegistersByRoute | server/routes/authRoutes.js:7-26 | a body the chains accept, whose normalised email and trimmed username the schema accepts and no stored user holds, gives 201 and appends exactly the new user with the normalised email |
| AuthRoutes.RegisterThenLoginWithStoredEmail | server/routes/authRoutes.js:11-30 | after registering through the route, logging in with the normalised email and the same password succeeds for the new user, whose token admits it for a day |
| AuthRoutes.LoginWithTypedEmailIsRefused | server/routes/authRoutes.js:11-30 | the login route does not normalise: logging in with the email as typed, when normalizeEmail changed it and no earlier user has it, gives 401 'User not found' |
| AuthRoutes.RegisterValidPasswordMeetsSchema | server/routes/authRoutes.js:14-15 | a password accepted by the chain also meets the schema's minlength |
| AuthRoutes.LongAstralUsernameFailsSchema | server/routes/authRoutes.js:8-10 | a username accepted by the chain whose trimmed UTF-16 length exceeds 30 gets the schema's 400, not the chain's message |
| AuthRoutes.Register | server/routes/authRoutes.js:26 | the route on the database follows RegisterRouteOutcome and keeps the database valid |
| AuthRoutes.LoginErrors | server/routes/authRoutes.js:19-22 | no errors exactly when the email passes isEmail and a non-empty password is present |
| AuthRoutes.LoginRoute | server/routes/authRoutes.js:30 | the login route answers only 200, 401 or 500 and never reports validation errors |
| AuthRoutes.LoginIgnoresValidation | server/routes/authRoutes.js:30 | a body the login chains reject still logs in with a stored email and the right password |
| AuthContext.Normalize | client/src/context/AuthContext.jsx:23-26 | a non-empty _id is kept, else _id takes id, else it is dropped; every other field kept |
| AuthContext.NormalizeIdempotent | client/src/context/AuthContext.jsx:23-26 | normalising twice equals normalising once |
| AuthContext.NormalizeSetsIdFromServerId | client/src/context/AuthContext.jsx:25 | a server user { id, ... } gets _id equal to id |
| AuthContext.InitialToken | client/src/context/AuthContext.jsx:13 | the initial token is the stored token exactly when it is non-empty |
| AuthContext.StorageAfterLogin | client/src/context/AuthContext.jsx:34-35 | 'user' holds the serialised normalised user, 'token' the token text, every other key unchanged |
| AuthContext.StorageAfterLogout | client/src/context/AuthContext.jsx:46-47 | 'user' and 'token' removed, every other key unchanged |
| AuthContext.Session.constructor | client/src/context/AuthContext.jsx:12-17 | the initial user and token come from storage, and the session is authenticated exactly when a token was stored |
| AuthContext.Session.Login | client/src/context/AuthContext.jsx:20-36 | the state holds the normalised user and the token, authenticated, and storage becomes StorageAfterLogin |
| AuthContext.Session.Logout | client/src/context/AuthContext.jsx:39-48 | the state is cleared and storage becomes StorageAfterLogout |
| AuthContext.ReloadAfterLoginRestoresSession | client/src/context/AuthContext.jsx:12-17 | after a login with a non-empty token, the initial-state rule reproduces the user and token |
| AuthContext.ReloadAfterLoginWithoutToken | client/src/context/AuthContext.jsx:13 | an empty token is lost on reload, and an undefined one comes back as the text "undefined" |
| AuthContext.ReloadAfterLogoutIsLoggedOut | client/src/context/AuthContext.jsx:12-17 | after a logout a reload finds neither user nor token, and other keys survive |
| ApiService.InterceptedHeaders | client/src/apiService.js:23-29 | Authorization is `Bearer <token>` exactly when a non-empty token is stored; otherwise the headers are unchanged; other headers always kept |
| ApiService.Intercept | client/src/apiService.js:20-34 | the same config is passed on with its headers set as InterceptedHeaders says |
| ApiService.HandleAxiosError | client/src/apiService.js:37-60 | always rejects: with the server's non-empty message, else the 401 text, else 'Request failed with status code N'; the no-response text; or the error's own message |
| ApiService.Call | client/src/apiService.js:64-160 | resolves with response.data exactly for a 2xx response, otherwise rejects through handleAxiosError |
| ApiService.FallbackMessagesAreNonEmpty | client/src/apiService.js:45-48 | for an error body without a message the client's message is never empty |
| ApiService.StatusReadsBackFromMessage | client/src/apiService.js:47-48 | the status can be parsed back from the 'Request failed with status code N' message |
| Flows.StoredTokenAuthenticates | server/middleware/authMiddleware.js:15-31 | a stored token issued for a user and sent by the interceptor admits that user for one day and is refused afterwards |
| Flows.LoginSessionAuthenticates | client/src/context/AuthContext.jsx:34-35 | the token of a successful login, kept by the session and attached by the interceptor, admits the logged-in user within a day |
| Flows.ServerErrorsReachClient | client/src/apiService.js:42-44 | every reply of the error handler reaches the client as a rejection with exactly its message |
| Flows.DeniedRequestShowsServerMessage | client/src/apiService.js:42-46 | the middleware's 401 reaches the client with its own message, never the 'Unauthorized' fallback |
| Flows.ValidationDetailsDoNotReachClient | server/middleware/postValidator.js:7 | post validation failures show as 'Request failed with status code 400' and register failures as 'Validation failed'; no field message reaches the client |

## Left out

- The HTTP server, routing by path, JSON parsing of bodies and database connection are not modelled. server/server.js is not part of this model.
- Promises and concurrency are not modelled. Each request runs to completion, so two requests that race on the same username are not covered.
- Console logging is not modelled.
- The error stack's contents are not modelled; the error handler's stack is an opaque string.
- `populate` is not modelled. It only decorates replies with fields of the referenced category and user; replies carry the stored ids.
- Collections are sequences in insertion order, not MongoDB collections. Ids are supplied by the caller (`freshId`) and clocks are passed as `now`.
- Request bodies carry only string fields or absent ones. Non-string JSON values, and mongoose's casting of them, are not modelled.
- A CastError raised by an update body is modelled as `PostRoutes.UpdateCastFails` over the category and user fields only. A body `_id` in an update is not applied, and the MongoDB error for changing an immutable `_id` is not modelled.
- PostModel.PostInput: a body createdAt is taken as an already cast time. A date string mongoose cannot cast, and the cast error it raises, are not modelled.
- PostRoutes.SaveMessages: when both the category and the _id fail to cast, their messages are taken in schema path order, category first.
- Authenticate: the id decoded from a verified token is looked up as it was signed, not through the ObjectId cast. Tokens are issued only for ids read from the store, which are already ObjectId strings, so the cast would not change them.
- AuthController.LoginUser: an absent email is taken to match no stored user, since every stored user has an email. The query mongoose sends for `{ email: undefined }` is not modelled.
- AuthController.RegisterUserOutcome: the duplicate-key error's message is a fixed "E11000 duplicate key error", not MongoDB's full text.
- AuthContext.InitialUser: JSON.parse throwing on corrupt stored text is not modelled. parse answers None for such text instead of the provider crashing.
- AuthContext.Json: JSON is a parameter. Its round trip is assumed (JsonRoundTrips) rather than proved for a concrete encoder.
- The pages, components, useApi hook and route guard of the client are not modelled. They render and navigate, and repeat rules that are modelled here.
- bcrypt, jsonwebtoken, ObjectId.isValid, the ObjectId a value casts to, mongoose's CastError message, isEmail and normalizeEmail are parameters. Their internals are not modelled, only the facts in `Collaborators.Sound`.
