# Request-handling rules of the bookstore and restaurant-menu backends

This project models the request-handling layer of two small Express/Mongoose
REST backends and proves properties of it in Dafny. The bookstore serves
books, genres and book comments. The restaurant-menu service serves dishes,
dish comments and per-user favorites, and it has JWT login and registration.

Each document collection is an in-memory collection held by a class:

- books, genres and dishes are maps from id to document;
- users and favorites are sequences in insertion order, so `findOne` is the
  first match.

Each handler is a method or function that returns a `Reply`:

- `Success(status, value)`;
- `Failure(status, message)`;
- `Unhandled(error)`, for the paths where a handler's promise rejects
  outside any `try`/`catch`. The model assumes Express 4, which does not
  pass such a rejection to its error handler, so the handler sends no
  reply. What the process does next is not modelled: Node 15 and later
  terminate it by default.

The modules:

- `Common`: ids, status codes, the `Reply` datatype and JavaScript
  truthiness, which also defines Mongoose's `required` on strings.
- `ArrayOps`: the array operations the handlers rely on. These are first
  match, `filter`, `$pull`, `splice(i, 1)` and `$addToSet` with `$each`.
- `Gate`: `authMiddleware` and `authorize`, modelled once. FavoriteRouter.js,
  DishRouter.js and the other routers carry identical copies.
  - Token verification is a parameter: a function from the token text to
    either the claims or the name of the thrown error.
  - `Admit` composes the gates in their registration order.
- `DishRoutes` and `Favorites.AccessOf`: the route-to-role tables.
- `Accounts`: `/login` as a function (hash comparison and signing are
  parameters) and `/register` as a method of `UserStore`.
- `BookModel`, `DishModel`: the schemas as validity predicates, the unique
  indexes, and the dish defaults.
- `Books`:
  - the functions behind the book handlers (filter, patch, comment merge,
    genre clearing);
  - `BookStore`, whose methods are the handlers of bookFunction.js.
- `Dishes`: `DishStore`, whose methods are the handlers of
  DishController.js. The users collection they consult is a parameter.
- `Favorites`: `FavoriteStore`, whose methods are the five favorites handlers.

The `Valid()` invariants of `BookStore` and `DishStore` state the schema
constraints and unique indexes. These are:

- a rating lies in [1, 5];
- required strings are present and non-empty;
- a dish price is present and not negative;
- book pages and price are not negative when present;
- isbn, genre name and dish name are unique.

Every state-changing method of those two stores keeps its store's
invariant. A write the schema would reject is modelled as the rejection the
handler produces. `FavoriteStore.Valid()` says no two records belong to the
same user. The single add and both removals keep it. The batch add keeps it
when the token carries no `_id` claim, which no token signed at `/login`
does.

### Behaviour of the code worth knowing

- **Token errors.** An expired token (`TokenExpiredError`) gets 500. Only a
  verification error named `JsonWebTokenError` gets 401.
- **Book updates.** `handleUpdateBook` computes an allow-list of fields but
  never uses it, so isbn and genre can be changed.
- **Duplicate favorite.** Adding a single dish that is already a favorite
  gives 400.
- **Registration role.** Registration stores whatever `role` the client
  sends.
- **Dish `updateComment`.** It dereferences the user and the comment before
  its null test, so a missing comment never gets the "Comment not found"
  reply.
- **Favorites batch add.** Whenever the batch holds new ids it creates a
  further Favorite document, even when it has just merged them into the
  user's record. That document's user is the `_id` claim, which tokens
  issued at login do not carry, so it is stored without a user.

## Model

| member | source | states |
|---|---|---|
| Gate.BearerToken | src/routes/FavoriteRouter.js:19-23 | For a header with the `Bearer ` prefix, the token is the text after the prefix up to the next space or the end: the second space-separated field. The token contains no space. |
| Gate.BearerTokenOfHeader | src/routes/FavoriteRouter.js:23 | `Bearer <token>`, with or without further space-separated text, yields exactly `<token>`. |
| Gate.Split | src/routes/FavoriteRouter.js:23 | `split(' ')`: the runs of text between spaces, empty runs included, so there is at least one field and no field contains a space. |
| Gate.SplitJoin | src/routes/FavoriteRouter.js:23 | Joining the fields of `split(' ')` with spaces gives back the header. |
| Gate.Authenticate | src/routes/FavoriteRouter.js:17-34 | A missing header, or one without the prefix, gives 401 "No token provided" before verification. A `JsonWebTokenError` gives 401 "Invalid token". Any other verification error gives 500. Otherwise `req.user` is exactly the decoded claims. |
| Gate.Authorize | src/routes/FavoriteRouter.js:8-15 | Passes if and only if the claims are present, the role is truthy and the role is in the list. Otherwise the reply is 403 "Forbidden - Insufficient permissions". |
| Gate.PublicNeedsNoToken | src/routes/DishRouter.js:44-46 | A route registered before the gate is reached with any header or none. |
| Gate.TokenBeforeRole | src/routes/DishRouter.js:25-48 | On a protected route, a token failure gives the same 401 or 500 whatever the role list is. Only a verified token can be refused with 403. |
| Gate.AdmitIff | src/routes/DishRouter.js:16-23 | A protected route admits exactly the verified tokens whose role is in its list, and then `req.user` is their claims. |
| Gate.Admit | src/routes/DishRouter.js:44-55 | The gates run in registration order: a public route is reached with no `req.user`; a protected one runs `authMiddleware` first, and only a verified token's claims go on to `authorize`, whose refusal is the reply. |
| DishRoutes.AccessOf | src/routes/DishRouter.js:44-55 | The three reads are public. The dish mutations need `admin`. The comment mutations need `user`. |
| DishRoutes.ReadsArePublic | src/routes/DishRouter.js:44-48 | The three GET routes reach the handler without a token. |
| DishRoutes.MutationNeedsItsRole | src/routes/DishRouter.js:50-55 | A mutation is admitted if and only if the token verifies and its role is `admin` (dishes) or `user` (comments). |
| DishRoutes.AdminCannotComment | src/routes/DishRouter.js:53-55 | A verified `admin` token is refused with 403 on every comment route. |
| DishRoutes.TokenDecidedFirst | src/routes/DishRouter.js:25-42 | On every mutation a token failure is answered with the gate's 401 or 500, before the role is examined. |
| Accounts.FindByUsername | src/routes/AuthRouter.js:13 | An account with that username, and no earlier account has it. None exactly when no account has it. |
| Accounts.FindById | src/controllers/DishController.js:92 | An account with that id, and no earlier account has it. An absent id finds nobody. |
| Accounts.Login | src/routes/AuthRouter.js:9-31 | An unknown username and a wrong password both give 401 "Invalid username or password". An absent password makes the comparison throw, which gives 500. Success occurs exactly when the user exists and the comparison accepts, and then the token signs exactly `{userId, role}` of that user with expiry "1h". |
| Accounts.UnknownUserLooksLikeBadPassword | src/routes/AuthRouter.js:15-22 | An unknown username and a known one with a wrong password get identical replies. |
| Accounts.FindByUsernameAppend | src/routes/AuthRouter.js:37-50 | Adding an account leaves earlier username lookups unchanged. A lookup that found nobody now finds the new account when the name is its own. |
| Accounts.UserStore.Register | src/routes/AuthRouter.js:33-57 | A taken username gives 409 and no change. An absent password gives 500 and no change. Otherwise the reply is 201 and exactly one account is appended, holding the username, `hash(password)` and the client's role. Usernames and ids stay unique. |
| Accounts.RegisterThenLogin | src/routes/AuthRouter.js:42-51 | After registering, logging in with the same password returns a token for the new id and the chosen role. This assumes the comparison accepts a password against its own hash. |
| ArrayOps.FirstWhere | bookFunction.js:282 | The index of the first element satisfying the predicate, all earlier ones failing it. None exactly when no element satisfies it. |
| ArrayOps.Keep | src/routes/FavoriteRouter.js:61 | `filter`: no longer than the input, and every kept element satisfies the predicate. |
| ArrayOps.KeepCount | src/routes/FavoriteRouter.js:61 | `filter` keeps each satisfying value exactly as often as the input had it, and drops every other value. |
| ArrayOps.KeepAppend | src/routes/FavoriteRouter.js:61 | Filtering a concatenation is concatenating the filtered parts. |
| ArrayOps.KeepAll | src/routes/FavoriteRouter.js:61 | Filtering by a predicate every element satisfies changes nothing. |
| ArrayOps.PullSpec | src/routes/FavoriteRouter.js:106 | `$pull` removes every occurrence of the value and keeps every other value's count. |
| ArrayOps.Pull | src/routes/FavoriteRouter.js:106 | `$pull: { dishes: dishId }`: keeps exactly the elements other than the pulled value, in their order. |
| ArrayOps.RemoveAt | bookFunction.js:287 | `splice(i, 1)`: one element shorter. Elements before `i` are kept, and later ones shift down by one. |
| ArrayOps.AddToSet | src/routes/FavoriteRouter.js:64 | `$addToSet` with `$each` keeps the old array as a prefix. |
| ArrayOps.AddToSetMembers | src/routes/FavoriteRouter.js:64 | The result holds exactly the old elements and the added ones. |
| ArrayOps.AddToSetCount | src/routes/FavoriteRouter.js:64 | An element already present keeps its count. A new element occurs once, however often the batch repeats it. |
| ArrayOps.AddToSetNoDup | src/routes/FavoriteRouter.js:64 | An array free of duplicates stays free of duplicates. |
| Common.OrString | bookFunction.js:261-262 | `a \|\| b` on strings is one of its operands, and it is truthy exactly when either operand is. |
| Common.OrNumber | bookFunction.js:260 | `a \|\| b` on numbers is one of its operands, and it is truthy exactly when either operand is. |
| Books.ListBooks | bookFunction.js:29-54 | A book is listed if and only if its price is strictly below a supplied `maxPrice` and its genre equals a non-empty `genre`. Listed books are returned unchanged. No match gives 404. |
| Books.Matches | bookFunction.js:33-41 | The filter built from the query: a numeric `maxPrice` requires a price strictly below it, and a truthy `genre` requires that exact genre; an absent or empty key adds no condition. |
| Books.ListIgnoresOtherKeys | bookFunction.js:31 | Query keys other than `maxPrice` and `genre` do not change the reply. |
| Books.FindBookById | bookFunction.js:57-71 | 404 for an unknown id, otherwise 200 with the stored book. |
| Books.PatchValid | bookFunction.js:101 | The validators `runValidators` applies to the supplied fields only: a supplied isbn or title is a non-empty string, a supplied pages or price is at least 0, and every supplied comment is valid. |
| Books.ApplyPatch | bookFunction.js:101 | `$set: updateData`: each of the eleven fields the body supplies replaces the stored one, and every other field keeps its stored value. |
| Books.AllowListNotApplied | bookFunction.js:98-101 | isbn and genre are not on the allow-list, yet a supplied isbn or genre is written. |
| Books.PatchKeepsUnsupplied | bookFunction.js:101 | `$set` leaves each of the eleven fields as it was when the body does not supply it. A body with no keys changes nothing. |
| Books.PatchPreservesValidity | bookFunction.js:101 | A body the update validators accept keeps a valid book valid. |
| Books.ClearGenre | bookFunction.js:192 | Every book that referenced the genre has its genre field unset. Books that did not reference it are unchanged. No other field changes, and no book is removed. |
| Books.FindComment | bookFunction.js:255 | The first comment with that id, and none exactly when no comment has it. |
| Books.MergeComment | bookFunction.js:260-262 | Each of rating, comment and author takes the new value when it is truthy and keeps the old one otherwise. The id is kept. |
| Books.MergeFalsyKeeps | bookFunction.js:260-262 | Absent, 0 and "" values leave the comment unchanged. |
| Books.MergeValidity | bookFunction.js:260-264 | The merged comment of a valid comment is valid if and only if a truthy new rating lies in [1, 5]. |
| Books.BookStore.CreateBook | bookFunction.js:3-26 | A taken isbn gives 409, checked before the genre. An unknown genre gives 400. A schema violation gives 500. None of these inserts anything. Success gives 201 and inserts exactly this book under the new id. |
| Books.BookStore.DeleteBook | bookFunction.js:73-90 | An unknown id gives 404 and no change. Otherwise the book is removed and returned. |
| Books.BookStore.UpdateBook | bookFunction.js:93-115 | A validation failure gives 400. An unknown id gives 404. An isbn held by another book gives 500. Otherwise every supplied field, isbn included, is set and the result is 200. |
| Books.BookStore.CreateGenre | bookFunction.js:117-134 | A taken name gives 409 and no insert. A missing name gives 500. Otherwise 201 with exactly one genre added. |
| Books.BookStore.UpdateGenre | bookFunction.js:162-181 | A missing name gives 400. An unknown id gives 404. A name held by another genre gives 500. Otherwise the name is replaced. |
| Books.BookStore.DeleteGenre | bookFunction.js:183-205 | An unknown genre gives 404 and no book is touched. Otherwise the books are exactly those cleared of the genre, and the genre is removed. |
| Books.BookStore.CreateComment | bookFunction.js:208-226 | An unknown book gives 404. A schema violation gives 500. Otherwise `{rating, comment, author}` from the body is appended at the end and the reply is 201. |
| Books.BookStore.UpdateComment | bookFunction.js:244-270 | An unknown book or comment gives 404. Otherwise the first matching comment is merged; all other comments and books are unchanged. The reply is 200 exactly when the merge is valid, otherwise 500. |
| Books.BookStore.DeleteComment | bookFunction.js:272-295 | An unknown book or comment gives 404. Otherwise exactly the first matching comment is spliced out. |
| Books.ClearComments | bookFunction.js:307 | The book's comments become empty. Its other fields and every other book are kept. |
| Books.BookStore.DeleteAllComments | bookFunction.js:298-318 | An unknown book gives 404. Otherwise the collection becomes `ClearComments` of the old one and the cleared book is returned. |
| Books.ClearCommentsIdempotent | bookFunction.js:298-318 | A second `deleteAllComments` on the same book leaves the collection as the first left it, and replies with the same book. |
| Books.DeleteCommentRemovesFirst | bookFunction.js:282-287 | The splice removes one comment and keeps the others in order. The multiset loses exactly that comment. |
| BookModel.ValidComment | bookModel.js:3-18 | A rating is present and in [1, 5]; the comment and the author are non-empty strings. |
| BookModel.ValidBook | bookModel.js:20-51 | isbn and title are non-empty strings and the publish date is present; pages and price, when present, are at least 0; every comment is valid. |
| BookModel.ValidGenre | bookModel.js:53-59 | The genre's name is a non-empty string. |
| BookModel.UniqueIsbns | bookModel.js:24 | No two stored books share an isbn. |
| BookModel.UniqueGenreNames | bookModel.js:57 | No two stored genres share a name. |
| DishModel.NewDish | src/models/Dish.js:38-50 | An absent label becomes "" and an absent featured becomes false. Supplied values and all other fields are kept. |
| DishModel.NewDishDefaults | src/models/Dish.js:38-50 | The defaults are "" and false, and they never decide whether a new dish is valid. |
| DishModel.ValidDishComment | src/models/Dish.js:3-22 | A rating is present and in [1, 5]; the comment and the author are non-empty strings. |
| DishModel.ValidDish | src/models/Dish.js:24-56 | name, image, category and description are non-empty strings; the price is present and at least 0; every comment is valid. |
| DishModel.UniqueDishNames | src/models/Dish.js:28 | No two stored dishes share a name. |
| Dishes.GetDishById | src/controllers/DishController.js:4-13 | 404 "Dish not found" for an unknown dish, otherwise the stored dish. |
| Dishes.GetDishComments | src/controllers/DishController.js:16-25 | 404 for an unknown dish, otherwise its comments sequence. |
| Dishes.FindDishComment | src/controllers/DishController.js:122 | A comment with that id, and no earlier comment has it. None exactly when no comment has it. |
| Dishes.PullComment | src/controllers/DishController.js:159 | No comment with that id remains. |
| Dishes.PullCommentKeepsOthers | src/controllers/DishController.js:159 | Comments with other ids keep their counts. |
| Dishes.PullCommentMember | src/controllers/DishController.js:159 | Every remaining comment was there before. |
| Dishes.PullAbsentComment | src/controllers/DishController.js:159 | Pulling an id no comment has changes nothing. |
| Dishes.DishStore.CreateDish | src/controllers/DishController.js:27-43 | The defaults are applied. A schema violation rejects with a validation error; a taken name rejects with a duplicate-key error. Neither path sends a reply or stores anything. Otherwise the dish is stored under the new id and returned. |
| Dishes.DishStore.PatchDish | src/controllers/DishController.js:50-71 | An unknown dish gives 404. Otherwise the dish becomes exactly the body: all eight fields are replaced, absent ones included. A body the schema or the name index rejects leaves the dish unchanged, with no reply sent. |
| Dishes.DishStore.DeleteDish | src/controllers/DishController.js:73-79 | The dish is absent afterwards, and the reply is "Dish deleted" whether or not it existed. |
| Dishes.DishStore.CommentDish | src/controllers/DishController.js:81-109 | An unknown dish gives 404. A user who no longer exists gives 500. The author is the caller's username; the body's author is never read. The comment carries the given time and is appended at the end. A schema violation gives 500. |
| Dishes.DishStore.UpdateComment | src/controllers/DishController.js:111-138 | An unknown dish gives 404. A missing user or comment rejects with no reply sent, so "Comment not found" is never replied. A non-author gets 403 and no change. For the author, rating and comment are overwritten (absent values included) and the author field stays. |
| Dishes.DishStore.DeleteComment | src/controllers/DishController.js:141-171 | An unknown dish gives 404. A missing user or comment gives 500. A non-author of the first matching comment gets 403 and no change. Otherwise every comment with that id is pulled, the rest stay in order, and the dish is returned. |
| Favorites.EveryRouteNeedsUser | src/routes/FavoriteRouter.js:36-52 | A favorites route is admitted if and only if the token verifies with role `user`, and then `req.user` is its claims. |
| Favorites.FindFavorite | src/routes/FavoriteRouter.js:40 | The user's first record, and none exactly when the user has no record. |
| Favorites.FindListing | src/routes/FavoriteRouter.js:104-108 | A record of the user listing the dish, and no earlier record of the user lists it. None exactly when there is none. |
| Favorites.NewDishIds | src/routes/FavoriteRouter.js:54-61 | With no record, the whole batch, repeats included. Otherwise no id the record already lists. |
| Favorites.NewDishIdsCount | src/routes/FavoriteRouter.js:56-61 | Against a record, every unlisted id keeps its count from the batch (no de-duplication), and every listed id is dropped. |
| Favorites.BatchMergeIsUnion | src/routes/FavoriteRouter.js:63-65 | After the merge the record lists exactly the old ids and the new ones. An id already listed keeps its count; a new one is listed once. |
| Favorites.RemoveFirstRecord | src/routes/FavoriteRouter.js:78 | `deleteOne`: no change without a record. Otherwise exactly the user's first record is cut out and the others keep their order. |
| Favorites.RemoveAllIdempotent | src/routes/FavoriteRouter.js:77-82 | With at most one record for the user, removing all favorites twice equals removing them once. |
| Favorites.RemoveAllTwiceOnValidStore | src/routes/FavoriteRouter.js:77-82 | In a store that keeps `FavoriteStore.Valid()` (one record per user), a second `DELETE /` by a user changes nothing. |
| Favorites.RemoveAllNotIdempotentWithTwoRecords | src/routes/FavoriteRouter.js:68-78 | With two records for one user, a second removal deletes the second record. That state needs a token whose `_id` claim names a user with a record; `/login` never signs such a claim. |
| Favorites.FavoriteStore.Read | src/routes/FavoriteRouter.js:39-51 | 404 "Favorites not found" exactly when the user has no record. Otherwise 200 with the user's first record, the one `findOne` returns. |
| Favorites.FavoriteStore.AddMany | src/routes/FavoriteRouter.js:52-76 | Keeps one record per user when the token has no `_id` claim. The reply is always 200. New ids are merged into an existing record with `$addToSet`. Whenever there are new ids, a further record `{user: _id claim, dishes: new ids}` is appended and returned. With nothing new, no change is made and the reply is the existing record or null. |
| Favorites.FavoriteStore.AddOne | src/routes/FavoriteRouter.js:83-101 | Keeps one record per user. With no record, one is created listing just the dish. A dish already listed gives 400 and no change. Otherwise the dish is appended at the end of the record. |
| Favorites.FavoriteStore.RemoveOne | src/routes/FavoriteRouter.js:102-117 | Keeps one record per user. 404 "Dish not found in favorites." with no change exactly when no record of the user lists the dish. Otherwise that record has the dish pulled. |
| Favorites.FavoriteStore.RemoveAll | src/routes/FavoriteRouter.js:77-82 | Keeps one record per user. The reply is always 200, and the state becomes `RemoveFirstRecord` of the old one. |
| Favorites.RemoveOneRemovesEvery | src/routes/FavoriteRouter.js:104-108 | After a single removal the record lists no occurrence of the dish, and every other dish as often as before. |
| Favorites.AddOneKeepsNoDup | src/routes/FavoriteRouter.js:90-94 | A single add keeps a duplicate-free record duplicate-free. |

## Left out

- Database I/O, `async`/`await`, `populate` and `select`: every collection is in memory and every handler runs to completion before the next starts. The race between `findOne` and the later update in the favorites handlers is not modelled.
- The second 404 in `deleteGenre` (`deletedCount === 0`) and in dish `deleteComment` (`findByIdAndUpdate` returning null). They are unreachable when handlers run one at a time, since the document was found just before.
- Cryptography: `jwt.sign`, `jwt.verify`, `bcrypt.hash` and `bcrypt.compare` are uninterpreted parameters. The token round trip and expiry timing are therefore not stated, and `verify` reports only an error name.
- Express plumbing: routing, `res.status().json()` bodies (modelled as the `Reply` status and message), `next()`, logging, morgan, dotenv, app.js and index.js.
- Route wiring: app.js mounts only the dish, auth and user routers (app.js:17-19). FavoriteRouter.js is mounted nowhere, so the shipped app cannot reach the favorites handlers; the model describes them as they would behave if mounted. bookRouter.js and genreRouter.js are not part of this model, and the book and genre handlers run without any gate.
- Other routers: the Leader, Promotion and User routers, their schemas and User.js are not part of this model. Their gates are copies of `Gate`, and their handlers are pass-through calls. Accounts are stored without schema validation.
- Pass-through reads: `getAllDishes`, `getAllGenres`, `getGenreById` and `getAllComments` are single reads with no rule to state.
- Numbers: `parseFloat` and `isNaN` on `maxPrice` are not modelled; the query arrives as an already-parsed `Option<int>` that is present only when numeric. Prices (Decimal128 and Number), ratings and pages are integers, so a fractional value the schema accepts, such as a rating of 2.5, cannot be expressed. Dates are opaque integers.
- JSON `null`: a body or query field sent as `null` is taken as absent, like an omitted one.
- Books.BookStore.UpdateGenre: a body without `name` is answered 400 on the assumption that `{ name: undefined }` reaches the `required` update validator, as in Mongoose 5. Mongoose 6 and later drop undefined keys from an update, and the handler would then reply 200 with the unchanged genre, or 404. The Mongoose version is not part of this model.
- Favorites.RemoveAllIdempotent: idempotence of `DELETE /` rests on one record per user. `FavoriteStore.Valid()` states it and every handler keeps it, except a batch add with a token that carries an `_id` claim.
- Mongoose id casting: ids are strings compared by equality. A malformed id that would make a lookup throw (500) is not modelled.
- Undefined filter values: an absent value in a `findOne` filter (`{ isbn: undefined }`, `{ user: undefined }`) is compared as an absent value. The driver's own treatment of `undefined` in filters is not modelled.
- Favorites.FavoriteStore.AddMany: the body is taken as the sequence of its entries' `_id` values. A body that is not an array, which makes `map` throw into `next(err)`, is not modelled.
- Dishes.DishStore.CommentDish: the comment date is the clock value passed in, which is what `new Date()` supplies. The schema's `Date.now` default for comments sent without a date (`createDish`, `patchDish`) is not applied.
- Dishes.DishStore.PatchDish: the body's `comments` is always a sequence. A body without `comments`, where Mongoose would store an empty array, is taken as an empty sequence.
