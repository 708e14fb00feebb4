# Gadget store backend — a Dafny model of its request logic

The backend is a small e-commerce service: customers sign up and sign in,
admins manage a product catalog, and anyone can place an order that admins
then move through `pending`, `processing`, `completed` and `cancelled`. All of
its logic lives in one Express file, `server.js`. This project models that
logic as pure functions over an in-memory store and proves what the handlers
promise.

- `wrappers.dfy` — `Option`, `Result`, and `FindFirst` (a `findOne` over a collection).
- `text.dfy` — JavaScript's `trim` (the ECMAScript WhiteSpace and LineTerminator set), ASCII lower-casing, truthiness of an optional field, and `normalizeEmail`.
- `http.dfy` — every error answer as status code plus message, spelled as the handlers send them.
- `entities.dfy` — users, products, order lines, orders, roles and statuses.
- `auth.dfy` — bearer-token extraction, `requireAuth`, `requireAdmin`, and the two chained on admin routes.
- `accounts.dfy` — signup, signin and `GET /api/auth/me`.
- `catalog.dfy` — product create, update (the image fallback) and delete.
- `orders.dfy` — order assembly (`POST /api/orders`) and the status update.
- `server.js`'s routing is modelled in `server.dfy`: one store, one request, one reply, plus the properties that hold across every route.

Foreign calls are parameters. Token verification is a `Verifier` (a token to
its claims, or `None` when the signature or expiry check fails). Token signing
is a `Signer`. bcrypt is a `Hasher` and a `Comparer`. The id that the database
assigns to a new document is `Env.freshId`. The users collection is a sequence
in insertion order, so `findOne` is the first match. Catalog and orders are
maps keyed by id.

The model follows the code in three places worth knowing:
- Product creation accepts only an uploaded file as its image. An external image reference is not accepted.
- A quantity of `0` counts as 1, like an absent one, because the code reads `item.quantity || 1`.
- The batch lookup asks only for truthy ids. A line is then looked up under `String(productId)`, so an absent id reads as `"undefined"` (`Orders.KeyOf`).

## Model

| member | source | states |
|---|---|---|
| Text.Trim | server.js:168 | The result is the slice of the input that starts at the first non-whitespace character. Everything before and after it is whitespace, and neither end of the result is whitespace. |
| Text.TrimOfTrimmed | server.js:168 | A string with no whitespace at either end is its own trim. |
| Text.TrimUnique | server.js:168 | A trimmed string padded with whitespace on both sides trims back to itself, so the trim is fixed by its shape. |
| Text.PaddingIgnored | server.js:168 | Whitespace added around any string never changes its trim. |
| Text.Lower | server.js:168 | Same length. No upper-case ASCII letter is left. Every `A`–`Z` becomes its lower-case letter. Every other character, whitespace included, is unchanged. |
| Text.NormalizeEmail | server.js:167-169 | An absent email counts as the empty string. The result has no whitespace at either end and no upper-case letter. |
| Text.NormalizeCanonical | server.js:167-169 | A string that is already trimmed and has no upper-case letter normalises to itself. |
| Text.NormalizeIdempotent | server.js:167-169 | Normalising a normalised email changes nothing. |
| Text.CaseIgnored | server.js:167-169 | Two emails that differ only in the case of their letters normalise to the same string. |
| Text.NormalizePaddingIgnored | server.js:167-169 | Two emails that differ only in surrounding whitespace normalise to the same string. |
| Http.UploadFailed | server.js:371-373 | A failed upload answers 400 with the upload error's message, or the fixed text "Image upload failed." when the message is empty. |
| Auth.ClaimsOf | server.js:171-177 | A token carries the user's id and email. Its role claim is the user's role name, `"customer"` or `"admin"`, so it is `"admin"` exactly for admin users. |
| Auth.BearerToken | server.js:180-181 | The token is non-empty exactly when the header is present, starts with `"Bearer "` and has something after it. The header is then `"Bearer "` followed by the token. |
| Auth.BearerRoundTrip | server.js:181 | `"Bearer "` followed by a token extracts back to that token. |
| Auth.RequireAuth | server.js:179-194 | 401 "token is required" exactly when there is no token. 401 "invalid or expired" exactly when the verifier rejects the token. A token the verifier accepts yields exactly the verifier's claims for it. |
| Auth.NoTokenSkipsVerifier | server.js:183-185 | Without a token, any two verifiers give the same 401, so verify is never called. |
| Auth.RequireAdmin | server.js:196-201 | Passes exactly when a claim is present and its role is `"admin"`. Otherwise 403, and a missing claim also gives 403. |
| Auth.AdminGuard | server.js:179-201 | The chained guards pass exactly for a verified token whose role is `"admin"`. An authentication failure passes through unchanged, so a missing prefix or an empty token gives 401 on admin routes. After authentication succeeds, the only possible failure is 403. |
| Auth.CustomerTokenForbidden | server.js:196-201 | A valid token with the customer role gets 403 from the admin guard. |
| Accounts.FindByEmail | server.js:286 | Returns the first user with that email. It returns none exactly when no user has it. |
| Accounts.FindById | server.js:344 | Returns a user with that id. It returns none exactly when no user has it. |
| Accounts.Reply | server.js:299-306 | The reply's token signs the user's claims. The projection keeps the user's id, name, email and role. |
| Accounts.Signup | server.js:273-310 | The checks run in order: 400 for a missing field, then 400 for a password under 6 characters, then 409 exactly when the normalised email is already registered. Signup succeeds exactly when the fields are present, the password is long enough and the email is new. On success, exactly one customer is appended, with the normalised email and the hashed password. On failure the users are unchanged. Email uniqueness is preserved. |
| Accounts.Signin | server.js:312-340 | 400 for a missing field. 401 when no user has the normalised email. Otherwise the first user with that email decides: signin succeeds exactly when its digest matches the password, and then returns that user's reply. The only errors are these two. |
| Accounts.SigninIndistinguishable | server.js:320-327 | An unknown email and a wrong password give the identical 401. |
| Accounts.SignupThenSignin | server.js:273-340 | Signing in with the credentials of a successful signup succeeds for the new user. It returns the same user projection that signup returned, and a token over the same claims. Each request signs with its own signer, so the two tokens need not be equal. |
| Accounts.SignupDuplicateConflicts | server.js:285-289 | Any email whose normal form is registered gets 409 and leaves the users unchanged. |
| Accounts.RegisteredEmailConflicts | server.js:274-289 | A registered email, stored in normal form, gets 409 when it is sent again with its letters in any case and with any whitespace around it. |
| Accounts.Me | server.js:342-357 | The guard's error when authentication fails. 404 exactly when no user has the claimed id. It succeeds exactly when the token verifies and a user has the claimed id, and then answers that user's projection. |
| Catalog.CreateProduct | server.js:369-395 | The checks run in order: the guard's error, then 400 for a failed upload, then 400 when no file was uploaded. Success happens exactly when the guard passes and a file was stored. The product then has the form's fields and the image `/uploads/<filename>`, and it is stored under the new id. On failure the catalog is unchanged. |
| Catalog.UpdatedImage | server.js:409-411 | The image is the uploaded file's path, else a non-empty `existingImage`, else the stored image. A non-empty stored image never becomes empty. |
| Catalog.UpdateProduct | server.js:397-431 | The checks run in order: the guard's error, then 400 for a failed upload, then 404 for an unknown id. On success every field the form sends is replaced, and the image is chosen as above. The set of ids never changes. |
| Catalog.DeleteProduct | server.js:433-443 | The guard's error, then 404 for an unknown id. Otherwise exactly that id is removed and every other product is untouched. On failure the catalog is unchanged. |
| Orders.CoerceQuantity | server.js:473 | The coerced quantity passes the `< 1` check exactly when the quantity is absent, zero or positive, so only negative quantities are dropped. A positive quantity is kept as sent. A result other than 1 is always the client's own quantity. |
| Orders.KeyOf | server.js:472 | A line with a product id is looked up under that id. |
| Orders.AbsentIdLookup | server.js:464-474 | A line without a product id is looked up under `"undefined"`. It survives exactly when another line of the request names `"undefined"` literally, that id is in the catalog, and its own quantity passes. With real object ids, such a line is always dropped. |
| Orders.Survives | server.js:472-474 | A line is kept exactly when its key is in the product map and its quantity is absent or non-negative. |
| Orders.RequestedIds | server.js:464 | The batch asks for every present, non-empty product id of the request, and for nothing else. |
| Orders.ProductMap | server.js:465-466 | The lookup map is the catalog restricted to the requested ids, with the catalog's records. |
| Orders.Snapshot | server.js:476-482 | A kept line takes its name, price and image from the product record, never from the client. Its quantity is the coerced quantity, at least 1. |
| Orders.SurvivingIndices | server.js:471-475 | The positions of the surviving request lines are strictly increasing. Every one survives, and every surviving position is listed. |
| Orders.LinesFollowIndices | server.js:471-484 | The kept lines are exactly one snapshot per surviving request line, in request order. Repeated product ids are not merged. |
| Orders.LinesEmptyIff | server.js:486-488 | No line is kept exactly when no request line survives. |
| Orders.PresentIdResolves | server.js:464-474 | A line with a present, non-empty id survives exactly when that id is in the catalog and its coerced quantity is at least 1. |
| Orders.EmptyIdDropped | server.js:464 | A line with an empty product id is always dropped. |
| Orders.LinesSnapshotCatalog | server.js:476-482 | Every kept line names a catalog product and carries its name, price and image, with a quantity of at least 1. |
| Orders.TotalNonNegative | server.js:483 | Lines with non-negative prices and positive quantities have a non-negative total. |
| Orders.KeptTotalNonNegative | server.js:468-484 | When the catalog's prices are non-negative, as the schema requires, the order total is non-negative. |
| Orders.AssembleCart | server.js:468-484 | The loop builds exactly the reference list of kept lines, and its running total is their sum of price × quantity. |
| Orders.CreateOrder | server.js:446-504 | The checks run in order: 400 for a missing customer field, then 400 for a missing or empty cart, then 400 exactly when no line survives. An order is created exactly when the customer fields are present, the cart is non-empty and at least one line survives. On failure nothing is stored. On success the order is stored under the new id. It is `pending`, has the normalised email and the customer's fields, and holds the non-empty kept lines with a total equal to their sum. |
| Orders.LinesIgnoreClientFields | server.js:471-484 | The kept lines depend only on each line's product id and quantity. |
| Orders.ClientPricesIgnored | server.js:471-484 | Forging client names or prices never changes the created order or the store. |
| Orders.ExampleLines | server.js:471-484 | The ids `P1` and `bogus` stand for well-formed ids, and `bogus` is absent from the catalog. With P1 at 100, `[P1 × 2, bogus × 5]` keeps one line, P1 at 100 × 2, with total 200. |
| Orders.WorkedExample | server.js:446-504 | With the same well-formed ids, the same request creates an order with that single line and a total of 200. |
| Orders.ParseStatus | server.js:517-518 | A status is accepted only when the request names one of the four statuses exactly. |
| Orders.ParseStatusName | server.js:517 | Each of the four status names is accepted and parses back to its status. |
| Orders.UpdateStatus | server.js:515-535 | The checks run in order: the guard's error, then 400 for an invalid status whatever the id, then 404 for an unknown id. On success only that order's status is overwritten, with the named status. On failure the orders are unchanged. |
| Orders.AnyTransitionAllowed | server.js:522-527 | An admin can set any existing order to any status, with no transition rule, so completed → pending is allowed. |
| Server.Handle | server.js:273-535 | Each route writes only its own collection. Users change only on signup. The catalog changes only on the product routes. Orders change only on order creation and the status update. A failed request leaves the whole store as it was. |
| Server.OrderHistoryPreserved | server.js:446-535 | After any request, every existing order still exists and differs at most in its status. Deleting or editing a product never changes an order. Only order creation and the status update touch the orders collection. |
| Server.UsersInvariant | server.js:273-310 | No route breaks email uniqueness. Users are only ever appended. |
| Server.UserIdsStayUnique | server.js:291-297 | When the store's new id is fresh, no route makes two users share an id. |
| Server.ProductsPreserved | server.js:369-443 | When the store's new id is fresh, a product survives unchanged every request that does not update or delete it. |
| Server.GuardFailureChangesNothing | server.js:179-201 | An admin route whose guard fails answers with the guard's error and leaves the whole store as it was. |
| Server.CustomerCannotAdminister | server.js:196-201 | A customer's valid token gets 403 on every admin route and changes nothing. |

## Left out

- JWT signing and verification, and bcrypt hashing and comparison: these are foreign libraries, modelled as function parameters. `Accounts.SignupThenSignin` assumes that the comparer accepts the password for its own digest. A `Signer` stands for signing at one moment: `jwt.sign` stamps the issue and expiry times (`iat`, `exp`) from the clock, so the model never equates tokens signed by different requests.
- Express routing, CORS and body parsing: the model receives each route's inputs already parsed, as datatypes.
- Multer disk storage, the 5 MiB size cap and upload filename generation: these are I/O, and the filename depends on the clock and randomness. The upload's outcome (no file, a stored filename, or an error message) is an input.
- `GET /`, `GET /health`, `GET /api/apps` and `GET /api/orders`: they only read, and the two lists are ordered by database `createdAt` timestamps, which the model does not have.
- Startup seeding of the admin account and the product list: this is startup database I/O whose errors are only logged.
- Every 500 answer: store or runtime exceptions are not modelled, and the store is total.
- Text.Lower: only ASCII letters are lower-cased. JavaScript's `toLowerCase` also folds non-ASCII letters.
- Accounts.Signup: the password length counts Unicode code points, not UTF-16 code units. Non-string request values (a number as password, `null` as email) are not modelled.
- Accounts.Signup: the schema's `trim` setter on the user's name is not modelled. A name with surrounding whitespace is stored and returned untrimmed, where the store would trim it. A whitespace-only name, which the store would reject with a 500, is accepted.
- Text.NormalizeEmail: an absent field is `undefined`, which defaults to the empty string. A `null` email is not modelled. The code would turn it into the text `"null"`.
- Accounts.Signin: a `null` email is not modelled, for the same reason. The code would look up `"null"` and answer 401, where an absent email answers 400.
- Orders.CoerceQuantity: quantities and prices are integers. Floating-point numbers, numeric strings, and `NaN` from non-numeric strings are not modelled. `NaN < 1` is false, so such a line would be kept.
- Orders.CreateOrder: the Mongoose schema's own trimming and required-field validation at `Order.create` is not modelled. That validation would turn a whitespace-only customer field into a 500.
- Fresh ids: the id the store assigns to a new document is a parameter. `Catalog.CreateProduct`, `Accounts.Signup` and `Orders.CreateOrder` do not require it to be fresh, and with a reused id they would overwrite. The lemmas that need freshness take it as a hypothesis (`Server.OrderHistoryPreserved`, `Server.ProductsPreserved`, `Server.UserIdsStayUnique`).
- Orders.ProductMap: the store's cast error for a malformed object id is not modelled. The lookup treats any id string as a key, so such a line is dropped rather than failing with 500.
- Catalog.CreateProduct: the schema's `trim` setters on name, category, description, specs and image are not modelled. The product keeps the form's text as sent. A field that is empty after trimming, which the store would reject with a 500, is accepted.
- Catalog.UpdateProduct: the same `trim` setters are not modelled on update.
- Catalog.UpdateProduct: every form field is taken as sent. An update that leaves a field out sends it as `undefined`, and the store then keeps the stored value. The model cannot express such a request.
- Catalog.UpdateProduct: the update runs the schema validators. A negative price or a required text field left empty would answer 500 there, but the model stores the value.
- Catalog.CreateProduct: the schema validation of product fields (required text, `price >= 0`) on save is not modelled. `Orders.KeptTotalNonNegative` therefore takes non-negative catalog prices as a hypothesis.
- Catalog.UpdateProduct: the product read and the write are one step. The concurrent deletion between them, which would make the handler answer `null`, is not modelled.
- The race between the catalog lookup and `Order.create`: concurrency is out of scope.
