# Shopsy storefront in Dafny

Shopsy is a small web shop. A React/Redux client keeps a cart, an order list,
the sign-in session and the fetched products in four reducers. Its pages decide
which of those actions to dispatch: the product card and detail page add to the
cart, the checkout assembles an order, and the admin and order pages compute
their counts and lists. Route guards decide which pages render. An
Express/Mongoose server builds product list queries from the query string, with
`ApiFeature`. It validates and stores products (`productController`, the
product schema, `sanitizeProductData`), authenticates requests (`Protected`,
`restrictTo`) and registers and signs in users (`userController`).

This project models that logic in Dafny and proves what the code promises.

- **Reducers.** The four reducers are pure functions over records and
  sequences. Each action has a lemma saying what it changes and what it keeps.
  The cart's invariant `1 <= quantity <= stock` is proved preserved by the
  actions that keep it, and refuted by concrete inputs for those that do not.
- **Client pages.** The handlers that change component state are methods of
  classes: `DetailPage`, `CatalogState`, `RegisterForm`, `Dashboard`. Each is
  specified by the pure function that decides what it dispatches. Derived
  values (subtotal, shipping, counts, badges, recent orders, guard decisions)
  are functions with contracts and lemmas.
- **Server.** `ApiFeature` is a class whose methods update the query record
  step by step. The controllers are functions from a request and the current
  collection (a `map` from id to document) to the reply and the collection
  afterwards. The loops of `updateProduct` and `sanitizeProductData` are
  methods proved equal to those functions.

`JsCore` holds the JavaScript behaviour every module leans on. It covers
`trim` and `toLowerCase`, `split` and `join`, and `parseInt`, `parseFloat` and
`Number` on decimal text. It also holds truthiness, `map`, `filter` and
`findIndex`, and objects as ordered property lists. `ShopModel` holds the
client records: products, cart lines and orders.

JavaScript numbers are modelled as exact reals, and timestamps as integers
passed in by the caller. Database results, token verification outcomes and
password checks are parameters.

## Model

| member | source | states |
|---|---|---|
| CartReducer.AddExisting | client/src/Redux/Cart_Reducer/reducer.jsx:17-28 | ADD_TO_CART of an id already in the cart keeps the line count, sets the first line with that id to `min(old + (quantity \|\| 1), line stock)` and leaves every other line as it was |
| CartReducer.AddNewAppends | client/src/Redux/Cart_Reducer/reducer.jsx:29-36 | ADD_TO_CART of a new id appends exactly one line at the end, built from the payload with quantity `quantity \|\| 1` |
| CartReducer.AddNewIsNotClamped | client/src/Redux/Cart_Reducer/reducer.jsx:31-34 | the new line's quantity is not clamped: 5 units of a product with stock 2 give a line of 5, which breaks the invariant |
| CartReducer.AddTwiceKeepsOneLine | client/src/Redux/Cart_Reducer/reducer.jsx:11-36 | adding the same new product twice adds one line, not two |
| CartReducer.IncreaseSpec | client/src/Redux/Cart_Reducer/reducer.jsx:50-65 | INCREASE_QTY adds exactly 1 to each matching line below its stock and leaves every other line, and the count, unchanged |
| CartReducer.IncreaseAtCeilingIsNoOp | client/src/Redux/Cart_Reducer/reducer.jsx:53-58 | when every matching line is at its stock, INCREASE_QTY changes nothing |
| CartReducer.DecreaseSpec | client/src/Redux/Cart_Reducer/reducer.jsx:67-78 | DECREASE_QTY leaves only positive quantities, keeps every other positive line and the matching lines above 1 less one unit, and every line it leaves is some old line with the matching ones decremented |
| CartReducer.DecreaseAppend | client/src/Redux/Cart_Reducer/reducer.jsx:67-78 | DECREASE_QTY distributes over concatenation and maps one line to its decremented self or to nothing, so survivors keep their order and no line is added or duplicated |
| CartReducer.DecreaseDropsOtherEmptyLines | client/src/Redux/Cart_Reducer/reducer.jsx:70-76 | a zero-quantity line of another product is dropped by a decrease of a different id |
| CartReducer.RemoveSpec | client/src/Redux/Cart_Reducer/reducer.jsx:44-48 | REMOVE_FROM_CART keeps exactly the lines with another id, and distributes over concatenation, so relative order is kept |
| CartReducer.RemoveAbsentIsNoOp | client/src/Redux/Cart_Reducer/reducer.jsx:44-48 | removing an id that no line has returns the same items |
| CartReducer.UpdateSpec | client/src/Redux/Cart_Reducer/reducer.jsx:80-92 | UPDATE_CART_ITEM keeps the line count and merges the updates into exactly the lines with the id |
| CartReducer.UpdateCanBreakInvariant | client/src/Redux/Cart_Reducer/reducer.jsx:80-92 | an update to quantity 3 on a line with stock 2 turns a valid cart into an invalid one |
| CartReducer.ClearAndOther | client/src/Redux/Cart_Reducer/reducer.jsx:94-99 | CLEAR_CART empties the items and an unknown action returns the state unchanged |
| CartReducer.ReducePreservesValid | client/src/Redux/Cart_Reducer/reducer.jsx:17-99 | from a cart where every line has `1 <= quantity <= stock`, every action except UPDATE keeps that invariant; ADD needs a positive quantity and, for a new id, a new line within its stock |
| OrderReducer.CreatedAppends | client/src/Redux/Order_Reducer/reducer.jsx:10-17 | ORDER_CREATED grows the list by one, with the new order last and the earlier ones untouched |
| OrderReducer.StatusUpdatedSpec | client/src/Redux/Order_Reducer/reducer.jsx:19-29 | ORDER_STATUS_UPDATED keeps length and order; orders with the id get the status and the new `updatedAt` and keep every other field; others are unchanged; no transition is refused |
| OrderReducer.StatusUpdatedKeepsIds | client/src/Redux/Order_Reducer/reducer.jsx:23-27 | the sequence of order ids is the same after a status update |
| OrderReducer.StatusUpdatedIdempotent | client/src/Redux/Order_Reducer/reducer.jsx:23-27 | the same update at the same instant applied twice equals applying it once |
| OrderReducer.StatusUpdatedUnknownId | client/src/Redux/Order_Reducer/reducer.jsx:23-27 | an update for an id no order has leaves the state unchanged |
| OrderReducer.OtherActionUnchanged | client/src/Redux/Order_Reducer/reducer.jsx:31-32 | an unknown action returns the state unchanged |
| AuthReducer.SignupIsLogin | client/src/Redux/Auth_Reducer/reducer.jsx:16-42 | SIGNUP_SUCCESS and LOGIN_SUCCESS are the same transition, and both set the authenticated flag and clear loading |
| AuthReducer.LogoutResets | client/src/Redux/Auth_Reducer/reducer.jsx:49-53 | LOGOUT returns exactly the initial state: no token, no user, not authenticated |
| AuthReducer.FailureKeepsCredentials | client/src/Redux/Auth_Reducer/reducer.jsx:24-48 | SIGNUP_FAILURE and LOGIN_FAILURE clear both flags and keep the previous token and user |
| AuthReducer.RequestOnlyLoads | client/src/Redux/Auth_Reducer/reducer.jsx:11-34 | SIGNUP_REQUEST and LOGIN_REQUEST only raise the loading flag; an unknown action changes nothing |
| AuthReducer.LoginLosesUser | client/src/Redux/Auth_Reducer/reducer.jsx:35-42 | with the payload the pages dispatch (`{ token, user }`), the reducer as written is authenticated with the token but holds no user |
| AuthReducer.LoginKeepsUserFixed | client/src/Redux/Auth_Reducer/reducer.jsx:35-42 | reading `payload.user`, the same sign-in stores the user |
| AuthReducer.FixedKeepsSignedInHasUser | client/src/Redux/Auth_Reducer/reducer.jsx:11-55 | with the fixed reducer, "authenticated implies a token and a user are held" survives every action the pages dispatch |
| ProductReducer.RequestAndFailureFlags | client/src/Redux/Product_Reducer/reducer.jsx:11-39 | a request clears the error and sets loading; a failure sets the error and clears loading; neither touches `item` or `selectedProduct` |
| ProductReducer.ListSuccessStoresBody | client/src/Redux/Product_Reducer/reducer.jsx:18-24 | GET_SUCCESS stores the whole payload in `item`, clears the error and ends loading |
| ProductReducer.DetailSuccessKeepsLoading | client/src/Redux/Product_Reducer/reducer.jsx:25-32 | GET_SUCCESS_BY_ID stores the product with `quantity \|\| 1` and leaves loading raised after the request |
| ProductReducer.StockUpdateAfterListThrows | client/src/Redux/Product_Reducer/reducer.jsx:41-48 | once `item` holds a list response (an object), UPDATE_PRODUCT_STOCK throws, because the object has no `map` |
| ProductReducer.StockUpdateOnItems | client/src/Redux/Product_Reducer/reducer.jsx:41-53 | on an array, a bare-id payload sets the matching products' stock to undefined and leaves the others; an object payload matches nothing |
| ProductReducer.OtherActionUnchanged | client/src/Redux/Product_Reducer/reducer.jsx:55-56 | an unknown action returns the state unchanged |
| ApiFeature.Feature.constructor | server/Utils/ApiFeature.js:2-5 | a feature holds the query it was given and the parsed query string, with no page or limit yet |
| ApiFeature.SearchError | server/Utils/ApiFeature.js:9-26 | no search term, or an empty one, adds nothing and raises nothing; any non-empty search term raises `ReferenceError: Product is not defined`, because `Product` is never imported in this file |
| ApiFeature.Feature.Search | server/Utils/ApiFeature.js:8-28 | `search()` raises exactly the error `SearchError` gives and changes nothing else |
| ApiFeature.Feature.FilterStep | server/Utils/ApiFeature.js:31-49 | `filter()` adds exactly one condition, the filter object of the query string, and leaves the sort, projection and page window alone |
| ApiFeature.FilterIgnoresExcluded | server/Utils/ApiFeature.js:32-34 | a `page`, `sort`, `limit`, `fields` or `search` key anywhere in the query string leaves the filter object unchanged |
| ApiFeature.FilterKeepsOtherKeys | server/Utils/ApiFeature.js:32-45 | the filter object has one property per kept key, in order, under its renamed key, and the kept keys are exactly the query keys that are not steering keys |
| ApiFeature.CategoryBecomesIn | server/Utils/ApiFeature.js:37-39 | a truthy `category`, a single value or a repeated key, becomes `{ $in: [...] }` over all of its values |
| ApiFeature.RenameOnlyAddsDollars | server/Utils/ApiFeature.js:42-45 | the operator rewrite only inserts `$` characters: deleting every `$` from its output gives back its input |
| ApiFeature.DollarFreeRenameIsIdentity | server/Utils/ApiFeature.js:42-45 | a rewrite whose output has no `$` left the text unchanged |
| ApiFeature.RenameSingleWord | server/Utils/ApiFeature.js:43 | a whole word gains a leading `$` exactly when it is `gte`, `gt`, `lte` or `lt` |
| ApiFeature.OperatorWordsRenamed | server/Utils/ApiFeature.js:43-44 | `gte` becomes `$gte` and `lt` becomes `$lt` |
| ApiFeature.UnderscoreWordKept | server/Utils/ApiFeature.js:43 | `price_gte` is one word for `\b`, so it is left as it is |
| ApiFeature.CategoryKeyKept | server/Utils/ApiFeature.js:43 | the key `category` is not rewritten |
| ApiFeature.RenamedToCategory | server/Utils/ApiFeature.js:37-45 | the only key that the rewrite turns into `category` is `category` itself |
| ApiFeature.SpaceListSpec | server/Utils/ApiFeature.js:53-65 | a non-empty sort or fields string becomes the same-length text with every comma turned into a space; a missing or empty one gives the default; a non-string (a repeated key) raises |
| ApiFeature.Feature.Sort | server/Utils/ApiFeature.js:52-58 | `sort()` adds exactly the sort spec, `-createdAt` by default, or raises the split error and leaves the query unchanged |
| ApiFeature.Feature.LimitFields | server/Utils/ApiFeature.js:61-67 | `limitFields()` adds exactly the projection, `-__v` by default, or raises and leaves the query unchanged |
| ApiFeature.PageOfSpec | server/Utils/ApiFeature.js:71-72 | a parsed page of 1 or more is kept and anything else is 1; a parsed limit of 1 or more is kept, a missing or zero limit is 10, and a negative one is 1 |
| ApiFeature.Feature.Paginate | server/Utils/ApiFeature.js:70-79 | `paginate()` records page and limit, both at least 1, and makes the query skip every earlier page, a non-negative count, and take one page |
| ApiFeature.BuildCountQuery | server/Controller/productController.js:20-22 | the count query is `search().filter()`; without a search term it holds exactly the filter object and raises nothing |
| ApiFeature.BuildListQuery | server/Controller/productController.js:9-13 | the list query is `search().filter().sort().paginate()`; it raises the search error first, then the sort error, and otherwise holds exactly the filter, the sort and one page window |
| ProductController.PaginationSpec | server/Controller/productController.js:27-42 | `hasNext` holds exactly when the pages so far hold fewer products than match, `hasPrev` exactly when the page is not the first, and `totalPages` is the fewest pages of `limit` that hold every match (0 when nothing matches) |
| ProductController.CeilDivSpec | server/Controller/productController.js:27 | `Math.ceil(total / limit)` pages hold all products and one page fewer does not |
| ProductController.GetAllProduct | server/Controller/productController.js:6-52 | a search term or a non-string sort ends in a 500 reply carrying the error; otherwise the reply is 200 with the fetched page, its length, the message chosen by emptiness and the pagination block, and the count query uses the same filter as the list query |
| ProductController.GetProductById | server/Controller/productController.js:54-88 | 200 with the stored document exactly when the id is 24 hexadecimal digits and names a stored product; otherwise 400 or 404 and no data |
| ProductController.DeleteProduct | server/Controller/productController.js:262-296 | 200 with the deleted document exactly when the id is well formed and present, and then only that key leaves the collection; otherwise the collection is unchanged and the reply is 400 or 404 |
| ProductController.DeleteTwiceNotFound | server/Controller/productController.js:274-281 | deleting the same product twice answers 404 the second time, and a lookup afterwards answers 404 too |
| ProductController.MalformedIdRefused | server/Controller/productController.js:172-177 | a malformed id is refused with 400 by lookup, update and deletion whatever the collection and the body hold, and nothing changes; the same check stands at lines 59-64 and 267-272 |
| ProductController.CreateProduct | server/Controller/productController.js:90-165 | a missing field gives the 400 "required" reply; a 201 reply carries a schema-valid document stored under the new id; every other outcome is a 400 or 500 reply that leaves the collection unchanged |
| ProductController.CreateSucceeded | server/Controller/productController.js:96-140 | a creation that succeeds passed the required-field check, parsed price and stock, and used a name no stored product has |
| ProductController.CreatedDocument | server/Controller/productController.js:142-150 | the stored product holds the trimmed strings, the parsed price and the parsed stock, under a name not yet taken |
| ProductController.DuplicateRefused | server/Controller/productController.js:130-140 | a name equal to a stored one up to letter case and surrounding whitespace is refused with 400 and nothing is stored |
| ProductController.ZeroIsProvided | server/Controller/productController.js:96-128 | a zero price and a zero stock count as provided and parse to zero |
| ProductController.CreatePreservesInvariant | server/Controller/productController.js:90-165 | creation keeps every stored document valid and every stored name distinct up to letter case |
| ProductController.CreateGetDelete | server/Controller/productController.js:142-296 | a created product is found by its id, and deleting it gives back the collection as it was before the creation |
| ProductController.Put | server/Controller/productController.js:206-223 | assigning to a property the object already has keeps its length and its set of property names |
| ProductController.CopyAllowed | server/Controller/productController.js:189-195 | the copy loop keeps exactly the body's whitelisted properties, in order |
| ProductController.TrimStrings | server/Controller/productController.js:221-225 | the trim loop gives what trimming the five string fields in turn gives, and throws on a truthy non-string |
| ProductController.TrimAllKeepsKeys | server/Controller/productController.js:221-225 | trimming keeps the set of property names |
| ProductController.ConvertKeepsKeys | server/Controller/productController.js:198-218 | the price and stock conversions keep the set of property names |
| ProductController.PrepareUpdate | server/Controller/productController.js:179-233 | the update document is non-empty; a refusal is a 400 or 500 reply with no data |
| ProductController.UpdateDocumentKeys | server/Controller/productController.js:179-233 | the update document holds exactly the whitelisted properties the body names, and at least one |
| ProductController.NothingToUpdate | server/Controller/productController.js:227-233 | a body with no whitelisted property is refused with "No valid fields to update" and nothing changes |
| ProductController.UpdateProduct | server/Controller/productController.js:167-260 | the update handler replies and stores exactly what the update transition gives |
| ProductController.UpdateSpec | server/Controller/productController.js:167-260 | an update keeps the set of ids, changes no other product, keeps every document valid, answers 200 exactly when the id is well formed and present and the prepared update passes the validators, and then a lookup gives the updated document; otherwise nothing changes and the reply is 400, 404 or 500 |
| ProductController.ApplyKeepsValid | server/Controller/productController.js:235-238 | applying an update whose every path passes its validator keeps a valid document valid |
| ProductController.ApplyName | server/Controller/productController.js:235-238 | a `$set` of a trimmed name changes only the name |
| ProductController.UpdateCanDuplicateName | server/Controller/productController.js:235-238 | unlike creation, an update may rename a product to another product's exact name, so names are no longer distinct |
| ProductSchema.Validate | server/Model/productModel.js:7-53 | on trimmed strings the validators accept exactly the documents that meet every field constraint and have a price, and then store exactly those fields |
| ProductSchema.Cast | server/Model/productModel.js:5-65 | every document the schema accepts meets the field constraints |
| ProductSchema.CastOfValid | server/Model/productModel.js:5-65 | a document that already meets the constraints passes through the schema unchanged |
| ProductSchema.CastIdempotent | server/Model/productModel.js:5-65 | casting what the schema produced gives it back |
| ProductSchema.DefaultsApplied | server/Model/productModel.js:36-53 | a missing brand becomes "Generic", a missing stock 0 and a missing image the empty string |
| ProductSchema.ShortNameRefused | server/Model/productModel.js:7-13 | a name with one visible character is refused as too short, whatever whitespace surrounds it, because trimming runs before the length check |
| ProductSchema.ImageNotTrimmed | server/Model/productModel.js:50-53 | the image is the one string field stored without a trim |
| ProductSchema.StockRead | server/Model/productModel.js:69 | the stock getter rounds to the nearest whole number, and a valid stock reads as non-negative |
| Sanitize.Step | server/Utils/IsValidObject.js:21-43 | one property throws exactly when it is a price or stock that does not parse to a non-negative number |
| Sanitize.SanitizeProductData | server/Utils/IsValidObject.js:17-47 | the for-of loop returns what the property-by-property definition gives; with no argument, the empty object |
| Sanitize.NoArgument | server/Utils/IsValidObject.js:17 | with no argument the result is the empty object |
| Sanitize.ErrorIsFinal | server/Utils/IsValidObject.js:29-37 | once a property has thrown, later properties do not change the outcome |
| Sanitize.ThrowsIffRejected | server/Utils/IsValidObject.js:26-39 | the sanitizer throws exactly when some price or stock property is not a non-negative number |
| Sanitize.StepKeeps | server/Utils/IsValidObject.js:21-42 | a property off the whitelist adds nothing; one on it adds exactly one sound property under its own key |
| Sanitize.CleanedKeys | server/Utils/IsValidObject.js:17-47 | the result holds exactly the whitelisted keys of the input, each with a checked number or a trimmed value |
| Protected.Authenticate | server/Middleware/Protected.js:4-133 | access is granted only for a header that starts with "Bearer ", whose second space-separated piece is the granted token, non-blank, verified to a payload with an id, and whose id the lookup finds as the granted user |
| Protected.Request.constructor | server/Middleware/Protected.js:4 | a fresh request carries no user and no token and has not passed the middleware |
| Protected.Request.Protect | server/Middleware/Protected.js:4-133 | when access is granted, the request carries the user and the token and the next handler runs; otherwise the reply carries the refusal's code and its status, and the request is unchanged |
| Protected.TokenAfterBearer | server/Middleware/Protected.js:27 | the token is the text between "Bearer " and the next space, whatever follows that space |
| Protected.BareBearerIsEmptyToken | server/Middleware/Protected.js:18-35 | a header of just "Bearer " is refused as an empty token, not as a malformed header |
| Protected.SchemeIsCaseSensitive | server/Middleware/Protected.js:18-24 | a lower-case "bearer" is refused as a format error whatever follows it |
| Protected.GrantedExactly | server/Middleware/Protected.js:27-122 | for a well-formed header, access is granted exactly when the token verifies to a payload with a non-empty id and that user still exists |
| Protected.PayloadCodes | server/Middleware/Protected.js:41-74 | each verifier error maps to its own code, an unexpected error to INTERNAL_ERROR, a payload without an id to INVALID_TOKEN_PAYLOAD, and only INTERNAL_ERROR and DB_ERROR are 500 replies |
| Protected.RestrictTo | server/Middleware/Protected.js:136-169 | the role check passes exactly when there is a user with a non-empty role among the allowed roles; it refuses with 401 exactly when there is no user, and otherwise with 403 |
| Protected.CapitalAdminRefused | server/Middleware/Protected.js:157-165 | the role comparison is exact: a user with role "Admin" is refused by `restrictTo("admin")` with INSUFFICIENT_PERMISSIONS |
| Protected.ProtectThenRestrict | server/Middleware/Protected.js:119-145 | after the middleware granted access, the role check never answers 401 |
| UserController.CreateAccount | server/Controller/userController.js:37-58 | the account is created, under the trimmed lower-case address, exactly when that address is not yet registered; otherwise nothing is stored and no user is returned |
| UserController.FieldError | server/Controller/userController.js:19-27 | a field passes exactly when it is a string with something besides whitespace; a missing or blank one gives 400, and a non-string throws and gives 500 |
| UserController.FieldsError | server/Controller/userController.js:19-27 | the field checks pass exactly when name, e-mail and password all pass; a refusal is 400 or 500 and stores nothing |
| UserController.Register | server/Controller/userController.js:17-83 | registration as written: a refusal leaves the users unchanged, and a success returns a user |
| UserController.RegisterSpec | server/Controller/userController.js:17-58 | with a reserved address configured, registration succeeds exactly when the fields are well formed, the raw address differs from the reserved one ignoring case, and the normalized address is new; it then stores a user with role "user", the trimmed name, the normalized address and the hash of the trimmed password |
| UserController.BlankNameRefused | server/Controller/userController.js:22-27 | a blank name is refused first, with 400, whatever else the body holds |
| UserController.FieldsRefused | server/Controller/userController.js:22-27 | a body the field checks refuse gets their reply and stores nothing, in both versions of registration |
| UserController.NoReservedAddressConfigured | server/Controller/userController.js:11-35 | with no reserved address configured, every well-formed registration ends in the 500 reply, because the comparison reads a property of undefined |
| UserController.ReservedBypassedBySpace | server/Controller/userController.js:30-51 | a leading space before the reserved address passes the reserved check and registers the reserved address itself |
| UserController.RegisterFixed | server/Controller/userController.js:29-37 | registration with the reserved check on the normalized address: a refusal leaves the users unchanged, and a success returns a user |
| UserController.FixedNeverRegistersReserved | server/Controller/userController.js:29-37 | with the check on the normalized address, no variant of the reserved address is ever registered |
| UserController.Login | server/Controller/userController.js:85-134 | a 200 reply returns exactly the user stored under the normalized address; every reply is 200, 400, 401 or 500 |
| UserController.SameRefusal | server/Controller/userController.js:106-120 | an unknown address and a wrong password get the same 401 reply |
| UserController.LoginFound | server/Controller/userController.js:97-126 | a known address with a matching trimmed password signs in as the stored user |
| UserController.RegisterThenLogin | server/Controller/userController.js:17-126 | after a registration, signing in with the same address up to case and surrounding spaces and the same trimmed password returns the registered user |
| UserController.RefreshWith | server/Controller/userController.js:137-180 | the refresh handler answers 200 or 401 |
| UserController.RefreshToken | server/Controller/userController.js:137-180 | as written, a refresh never succeeds: every path answers 401 |
| UserController.RefreshNeverSucceeds | server/Controller/userController.js:151-178 | with no token the reply is "You are not logged in"; with any token it is "Invalid token", because the verifier is called without being imported |
| UserController.RefreshTokenFixed | server/Controller/userController.js:158-172 | with the verifier in scope, a success returns a user |
| UserController.FixedRefreshSucceeds | server/Controller/userController.js:147-172 | with the verifier in scope, a cookie token that decodes to an existing user is refreshed, where the handler as written answers "Invalid token" |
| UserController.BearerWithoutTokenIgnoresCookie | server/Controller/userController.js:142-149 | a header of just "Bearer" yields no token and does not fall back to the cookie |
| RegisterPage.FileCheck | client/src/Pages/Auth/Register.jsx:60-85 | a file is accepted exactly when its type is one of the five image types and it is at most 5 MiB; a wrong type is reported before the size |
| RegisterPage.SizeBoundary | client/src/Pages/Auth/Register.jsx:77-78 | exactly 5 MiB is accepted and one byte more is refused as too large |
| RegisterPage.SubmitCheck | client/src/Pages/Auth/Register.jsx:120-156 | the form goes out exactly when name, e-mail and password are filled, the chosen photo method has its photo, and the password has at least 8 characters; missing fields are reported first |
| RegisterPage.MissingFieldsFirst | client/src/Pages/Auth/Register.jsx:121-128 | an empty name is reported as missing fields whatever else is wrong |
| RegisterPage.UrlFormAccepted | client/src/Pages/Auth/Register.jsx:120-156 | with the URL method, a filled form with a long enough password and a photo URL goes out |
| RegisterPage.Submit | client/src/Pages/Auth/Register.jsx:117-243 | a refused form sends and dispatches nothing; an accepted one sends the trimmed name and e-mail, the untrimmed password and the photo or file data; the form is cleared exactly when the request went out and succeeded, after dispatching the request and the success with `{ token, user }` |
| RegisterPage.RegisterForm.constructor | client/src/Pages/Auth/Register.jsx:42-46 | the page starts with empty fields, the URL method, no file, no preview and not loading |
| RegisterPage.RegisterForm.HandleChange | client/src/Pages/Auth/Register.jsx:51-57 | typing changes exactly the one field typed into |
| RegisterPage.RegisterForm.HandleFileSelect | client/src/Pages/Auth/Register.jsx:60-95 | no file changes nothing; a refused file is reported and keeps the previous selection; an accepted file becomes the selection |
| RegisterPage.RegisterForm.HandleRemoveFile | client/src/Pages/Auth/Register.jsx:98-104 | removing the file clears both the selection and the preview |
| RegisterPage.RegisterForm.ChooseUrl | client/src/Pages/Auth/Register.jsx:521-524 | the "Enter URL" button selects the URL method and drops any chosen file |
| RegisterPage.RegisterForm.ChooseFile | client/src/Pages/Auth/Register.jsx:534-537 | the "Upload File" button selects the file method and clears only the typed photo URL |
| RegisterPage.RegisterForm.HandleSubmit | client/src/Pages/Auth/Register.jsx:117-243 | the handler sends and dispatches what `Submit` decides, resets the form only after a success, and ends every submission that passed the checks with loading off |
| RegisterPage.BlankNamePassesPageOnly | client/src/Pages/Auth/Register.jsx:121-184 | a name made only of spaces passes the page's check, and the request it sends is refused by the server with 400 |
| RegisterPage.SignupSuccessLosesUser | client/src/Pages/Auth/Register.jsx:206-209 | a successful sign-up, through the auth reducer as written, leaves the store authenticated with the token but without the user |
| ProductPage.GetCurrentPage | client/src/Pages/Customer/Product.jsx:26-30 | the page is always positive: a positive number is kept, and anything else (missing, zero, negative, not a number) is 1 |
| ProductPage.QueryParams | client/src/Pages/Customer/Product.jsx:32-48 | the request asks for the page and a limit of 10, then one `category` entry per selected category in selection order, then the sort when one is chosen |
| ProductPage.BuildQueryString | client/src/Pages/Customer/Product.jsx:32-48 | the loop appends exactly the entries `QueryParams` describes |
| ProductPage.Serialize | client/src/Pages/Customer/Product.jsx:47 | serialising keeps every entry's position and name |
| ProductPage.First | client/src/Pages/Customer/Product.jsx:71-75 | `searchParams.get` returns the value of the first entry with the key, and nothing only when no entry has that key |
| ProductPage.CatalogState.constructor | client/src/Pages/Customer/Product.jsx:60-82 | the page starts from the address bar: every `category` value in order, the page read by `getCurrentPage`, the sort or empty, and the price range with defaults 0 and 10000 |
| ProductPage.Toggle | client/src/Pages/Customer/Product.jsx:191-198 | an absent category is appended at the end; a present one loses every occurrence while every other category keeps its multiplicity, and the result is the order-preserving filter of the old list |
| ProductPage.ToggleOff | client/src/Pages/Customer/Product.jsx:191-198 | unticking a category ticked once gives back the categories before and after it, in their order |
| ProductPage.ToggleTwice | client/src/Pages/Customer/Product.jsx:191-198 | toggling an absent category twice gives the selection back |
| ProductPage.CatalogState.HandleFilterChange | client/src/Pages/Customer/Product.jsx:191-200 | a category toggle changes the selection as `Toggle` does and returns to page 1 |
| ProductPage.CatalogState.ClearFilters | client/src/Pages/Customer/Product.jsx:202-205 | clearing the filters empties the selection and returns to page 1 |
| ProductPage.CatalogState.HandleSortChange | client/src/Pages/Customer/Product.jsx:207-210 | a new sort is stored and the page returns to 1 |
| ProductPage.CatalogState.ClearAll | client/src/Pages/Customer/Product.jsx:212-221 | clearing everything empties the selection and the sort, restores the full price range and returns to page 1 |
| ProductPage.CatalogState.HandlePrevPage | client/src/Pages/Customer/Product.jsx:223-228 | the previous-page button goes back one page only from beyond page 1 |
| ProductPage.CatalogState.HandleNextPage | client/src/Pages/Customer/Product.jsx:230-236 | the next-page button goes forward one page only when the last reply said there is a next page |
| ProductPage.UrlRoundTrip | client/src/Pages/Customer/Product.jsx:60-76 | the address the page writes reads back as the same category selection, the same sort and the same page |
| ProductPage.UrlParts | client/src/Pages/Customer/Product.jsx:146-161 | the written address is the page entry, then the category entries, then the sort entry |
| ProductPage.Categories | client/src/Pages/Customer/Product.jsx:113-120 | the category list is strictly increasing in character order, hence free of duplicates, and holds exactly the non-empty categories of the fetched products |
| ProductPage.Insert | client/src/Pages/Customer/Product.jsx:114-120 | adding a category to a strictly sorted list keeps it strictly sorted and adds exactly that category |
| ProductPage.SortedUnique | client/src/Pages/Customer/Product.jsx:114-120 | two strictly sorted lists with the same elements are equal, so the category list is fixed by the set of categories |
| ProductPage.BeforeTransitive | client/src/Pages/Customer/Product.jsx:120 | the default string order of `sort` is transitive |
| ProductPage.BeforeTotal | client/src/Pages/Customer/Product.jsx:120 | any two different strings are ordered one way or the other |
| ProductPage.ShowingBounds | client/src/Pages/Customer/Product.jsx:457-463 | for a page within the results the "Showing a-b of n" range is non-empty, at most 10 long and ends no later than n, and the last page ends at n; for a page past the results the range is reversed |
| Checkout.CustomerId | client/src/Pages/Customer/Checkout.jsx:76 | the customer id is never empty, and it is "guest" exactly when there is no user or the user's id is empty or itself "guest" |
| Checkout.BuildOrder | client/src/Pages/Customer/Checkout.jsx:73-97 | the order is "processing", placed by the customer id, ships to the form's address, copies every cart line in order, totals the cart subtotal and carries the three clock readings: the id and the two separately read stamps |
| Checkout.PlaceOrder | client/src/Pages/Customer/Checkout.jsx:99-100 | placing an order dispatches exactly two actions: the order creation, then CLEAR_CART |
| Checkout.OrderSubtotalOfCart | client/src/Pages/Customer/Checkout.jsx:56-85 | the order lines are priced exactly as the cart lines were, so the order's total is the sum over its own lines |
| Checkout.PlaceOrderEffect | client/src/Pages/Customer/Checkout.jsx:73-106 | after placing, the order list gains the built order at its end and the cart is empty |
| Checkout.OrderComesBeforeClear | client/src/Pages/Customer/Checkout.jsx:99-100 | the creation is dispatched first; an order built after clearing would have no lines and a total of 0 |
| Checkout.EmptyCartStillOrders | client/src/Pages/Customer/Checkout.jsx:73-100 | with an empty cart and no user an order is still placed, with no lines, a total of 0 and the customer "guest" |
| Checkout.SignedInOrderIsGuest | client/src/Pages/Customer/Checkout.jsx:76 | through the auth reducer as written a signed-in customer's order is placed as "guest"; with the fixed reducer it carries the user's id |
| CartPage.Shipping | client/src/Pages/Customer/Cart.jsx:40 | shipping is free exactly above a subtotal of 50 and otherwise the flat 10 |
| CartPage.FreeShippingHint | client/src/Pages/Customer/Cart.jsx:256-268 | the hint shows exactly below 50 and asks for the positive amount that brings the subtotal to 50 |
| CartPage.NoHintAtFifty | client/src/Pages/Customer/Cart.jsx:40-268 | at exactly 50 there is no hint and shipping is still charged; at 49 the hint asks for 1, and at 51 shipping is free |
| CartPage.CartCount | client/src/Pages/Customer/Cart.jsx:28 | the header's count is the number of lines |
| CartPage.CountIsLines | client/src/Pages/Customer/Cart.jsx:28-136 | the count is of lines, not units: one line of three units shows 1 |
| CartPage.SubtotalAppend | client/src/Pages/Customer/Cart.jsx:34-37 | the subtotal of a concatenation is the sum of the subtotals |
| CartPage.SubtotalNonNegative | client/src/Pages/Customer/Cart.jsx:34-37 | a cart that keeps the quantity invariant and has no negative price has a non-negative subtotal |
| CartPage.AddNewRaisesSubtotal | client/src/Pages/Customer/Cart.jsx:34-37 | adding a product not yet in the cart raises the subtotal by its whole-dollar price times the quantity asked for |
| CartPage.ViewOf | client/src/Pages/Customer/Cart.jsx:44-268 | an empty cart renders the empty state and nothing else; a non-empty one renders the summary, whose count is the number of lines, whose subtotal is the cart subtotal, whose shipping and hint are those of that subtotal, with shipping free exactly above 50 and a hint that brings the subtotal to 50 |
| CartPage.ClearedCartShowsEmpty | client/src/Pages/Customer/Cart.jsx:44-103 | after CLEAR_CART the page shows the empty state, so the flat charge an empty subtotal would carry is never displayed |
| ProductCard.HandleCart | client/src/Component/ProductCard.jsx:20-57 | a click on a product already in the cart sets its first line to one more unit, with no check against stock; otherwise the product is added with quantity 1 |
| ProductCard.CardPushesAboveStock | client/src/Component/ProductCard.jsx:23-33 | a click on a line already at its stock pushes it to one unit above, which breaks the cart invariant |
| ProductCard.OutOfStockStillAdded | client/src/Component/ProductCard.jsx:42-47 | a product with nothing in stock still gets a line of 1, above its stock |
| ProductCard.HandleCartFixed | client/src/Component/ProductCard.jsx:23-33 | with the increase left to INCREASE_QTY, a click on a product in the cart is an increase and anything else an add |
| ProductCard.FixedCardKeepsValid | client/src/Component/ProductCard.jsx:20-57 | with that fix, every click keeps each line between one unit and its stock, for any product with something in stock |
| ProductCard.ShownPrice | client/src/Component/ProductCard.jsx:94 | the price is shown in whole units, rounded down |
| ProductDetail.AddToCartAction | client/src/Pages/Customer/ProductDetail.jsx:117-152 | no product dispatches nothing; a product in the cart updates its first line to `min(line + quantity, stock)`; any other product is added with the chosen quantity |
| ProductDetail.DetailPage.constructor | client/src/Pages/Customer/ProductDetail.jsx:43-45 | the page starts with a quantity of 1 and no "added" badge |
| ProductDetail.DetailPage.HandleIncreaseQty | client/src/Pages/Customer/ProductDetail.jsx:105-109 | the plus button adds one only while the quantity is below the product's stock, and does nothing without a product |
| ProductDetail.DetailPage.HandleDecreaseQty | client/src/Pages/Customer/ProductDetail.jsx:112-114 | the minus button takes one away, never below 1 |
| ProductDetail.DetailPage.HandleAddToCart | client/src/Pages/Customer/ProductDetail.jsx:117-155 | the add button dispatches what `AddToCartAction` decides and shows the badge; without a product nothing happens |
| ProductDetail.DetailPage.SyncAdded | client/src/Pages/Customer/ProductDetail.jsx:91-102 | the badge follows cart membership, but only while there is a product and the cart is non-empty |
| ProductDetail.SelectorBounds | client/src/Pages/Customer/ProductDetail.jsx:105-114 | from a quantity between 1 and the stock, both buttons keep it there; plus adds one exactly below the stock; minus never goes below 1 |
| ProductDetail.DetailAddKeepsValid | client/src/Pages/Customer/ProductDetail.jsx:117-152 | adding from the detail page keeps the cart invariant, given a quantity within stock and cart lines whose stock agrees with the product's |
| ProductDetail.ClampUsesCurrentStock | client/src/Pages/Customer/ProductDetail.jsx:123-126 | the clamp uses the product's current stock, not the line's: after a restock from 2 to 5, a full line of 2 plus 3 becomes 5 against a line stock of 2 |
| ProductDetail.AddPutsProductInCart | client/src/Pages/Customer/ProductDetail.jsx:117-154 | after an add the product is in the cart, so the badge the effect computes agrees with the one the handler set |
| AdminPage.Customers | client/src/Pages/Admin.jsx:116 | the customer set holds exactly the ids of the customers who placed some order |
| AdminPage.StatsOf | client/src/Pages/Admin.jsx:109-123 | the dashboard counts every order and every fetched product, its revenue is `Revenue` and its customers the size of `Customers`, so it shows no more customers than orders and no customers exactly when there are no orders |
| AdminPage.CustomersAtMostOrders | client/src/Pages/Admin.jsx:116 | there are never more distinct customers than orders |
| AdminPage.AllGuestsOneCustomer | client/src/Pages/Admin.jsx:116 | when every order is placed by "guest", however many there are, the dashboard shows one customer |
| AdminPage.RevenueAfterOrder | client/src/Pages/Admin.jsx:111-114 | a new order raises the revenue by its amount, or by nothing when it has none |
| AdminPage.RevenueIgnoresStatus | client/src/Pages/Admin.jsx:111-114 | a status update never changes the revenue: cancelled orders still count |
| AdminPage.CheckoutRaisesRevenue | client/src/Pages/Admin.jsx:111-114 | an order placed at checkout raises the revenue by exactly the cart's subtotal |
| AdminPage.StatusConfig | client/src/Pages/Admin.jsx:135-143 | shipped, delivered and cancelled get their own label and colour (purple, green, red); anything else gets the blue "Processing" badge |
| AdminPage.PendingShownAsProcessing | client/src/Pages/Admin.jsx:135-143 | a pending order shows as "Processing" here but as "Pending" on the order-history page |
| AdminPage.InsertByDate | client/src/Pages/Admin.jsx:192-194 | inserting one order into a newest-first list keeps it newest-first and adds exactly that order |
| AdminPage.SortByNewest | client/src/Pages/Admin.jsx:192-193 | the sorted copy is newest-first and a permutation of the orders |
| AdminPage.RecentOrders | client/src/Pages/Admin.jsx:192-194 | the recent list has the five newest orders, or all of them when there are fewer, newest first, each stored order at most as often as the store holds it |
| AdminPage.RecentAreNewest | client/src/Pages/Admin.jsx:192-194 | beyond the five shown, no order is newer than the oldest of them |
| AdminPage.FewOrdersAllShown | client/src/Pages/Admin.jsx:192-194 | with five orders or fewer, every order is shown |
| AdminPage.GuardedNeverRedirects | client/src/Pages/Admin.jsx:86-94 | a visitor the admin guard lets through is never redirected home by the dashboard's own check |
| AdminPage.SelectedFollowsStore | client/src/Pages/Admin.jsx:145-156 | after a status update the open order matches the store's updated order, except for its update time |
| AdminPage.WithoutProduct | client/src/Pages/Admin.jsx:173 | the product list after a deletion is the order-preserving filter of the products with another id, and is unchanged when no product has the id |
| AdminPage.WithoutProductAppend | client/src/Pages/Admin.jsx:173 | deletion distributes over concatenation and drops a single product exactly when its id matches, so the remaining products keep their order and multiplicity |
| AdminPage.Dashboard.constructor | client/src/Pages/Admin.jsx:71-83 | the dashboard starts with no products, zero statistics, no open order, the "all" filter and not loading |
| AdminPage.Dashboard.FetchDashboardData | client/src/Pages/Admin.jsx:101-133 | a successful fetch stores the products and the statistics of the orders and products; a failed one keeps both; loading ends either way |
| AdminPage.Dashboard.FilteredOrders | client/src/Pages/Admin.jsx:187-190 | the "all" filter shows every order, and any other filter the order-preserving filter of the orders with that status |
| AdminPage.Dashboard.HandleUpdateOrderStatus | client/src/Pages/Admin.jsx:145-164 | a status change dispatches the reducer's update for that order and status and updates the open order only when it is the one changed |
| AdminPage.Dashboard.HandleDeleteProduct | client/src/Pages/Admin.jsx:166-185 | a confirmed and successful deletion removes the product from the list; otherwise the list is unchanged |
| OrderPage.StatusConfig | client/src/Pages/Customer/Order.jsx:61-95 | the history page's badge is "Processing" exactly for "processing" and for any unknown status; pending, shipped, delivered and cancelled each get their own label, colour and description (orange, purple, green, red), and the rest get the blue processing style |
| OrderPage.DistinctBadges | client/src/Pages/Customer/Order.jsx:61-95 | the five known statuses get five different badges |
| OrderPage.CountsOf | client/src/Pages/Customer/Order.jsx:102-108 | the "all" count is the number of orders, each tab's count is the number of orders with that status, and the four tab counts plus the cancelled orders never exceed the "all" count |
| OrderPage.CountsAtMostAll | client/src/Pages/Customer/Order.jsx:102-108 | the five status counts add up to the number of orders with a known status, which is at most the number of orders |
| OrderPage.KnownIsAll | client/src/Pages/Customer/Order.jsx:102-108 | every order is counted by some status exactly when every status is one of the five |
| OrderPage.CountMatchesTab | client/src/Pages/Customer/Order.jsx:97-108 | a tab's count is the length of the list that tab shows |
| OrderPage.NewOrderEndsItsTab | client/src/Pages/Customer/Order.jsx:97-100 | a new order appears at the end of its status tab, after the ones already there |
| OrderPage.ViewOf | client/src/Pages/Customer/Order.jsx:97-249 | the page shows the empty state exactly when there are no orders, the tab's orders when it has some, and the tab's "no orders" message otherwise |
| OrderPage.AllTabNeverEmptyMessage | client/src/Pages/Customer/Order.jsx:111-241 | on the "all" tab the page never reaches its own "no orders yet" message: an empty list takes the empty state first |
| RouteGuards.AdminRoute | client/src/Utils/AdminRoute.jsx:4-16 | the admin guard renders exactly for an authenticated user with role "admin" or "Admin", sends to /signin exactly when unauthenticated or without a user, and otherwise sends to /; every redirect replaces history |
| RouteGuards.ProtectedRoute | client/src/Utils/ProtectedRoute.jsx:6-13 | the protected guard renders exactly when there is a non-empty token or the authenticated flag, and otherwise sends to /signin |
| RouteGuards.AdminPassesProtected | client/src/Utils/AdminRoute.jsx:7-15 | whatever the admin guard lets through, the protected guard lets through too |
| RouteGuards.ProtectedNeedsEitherHalf | client/src/Utils/ProtectedRoute.jsx:10 | either a token or the flag alone is enough, and an empty-string token without the flag is sent to /signin |
| RouteGuards.AdminSignInSentToSignin | client/src/Redux/Auth_Reducer/reducer.jsx:35-42 | with the auth reducer as written, a signed-in administrator is sent to /signin by the admin guard while the protected routes open; with the fixed reducer the admin guard renders |
| RouteGuards.LogoutLocksBoth | client/src/Redux/Auth_Reducer/reducer.jsx:49-53 | after signing out both guards send the visitor to /signin |
| JsCore.Trim | server/Controller/userController.js:22 | `trim` never lengthens a string and leaves neither leading nor trailing whitespace |
| JsCore.TrimCutsEdges | server/Controller/userController.js:22 | `trim` returns the infix of the string that starts after its leading whitespace and is followed only by whitespace |
| JsCore.TrimIdempotent | server/Controller/userController.js:22-50 | trimming twice is trimming once |
| JsCore.TrimEmptyIffWhitespace | server/Controller/userController.js:22 | `!s.trim()` holds exactly when the string is made of whitespace only |
| JsCore.ToLower | server/Controller/userController.js:30 | lower-casing keeps the length and maps each character on its own |
| JsCore.LowerTrimCommute | server/Controller/userController.js:37-51 | `trim().toLowerCase()`, used for the lookup, and `toLowerCase().trim()`, used for the stored address, give the same text |
| JsCore.Split | server/Utils/ApiFeature.js:55 | `split` on one character gives at least one piece, and no piece contains the separator |
| JsCore.JoinSplit | server/Utils/ApiFeature.js:55 | splitting and re-joining with the same separator gives the string back |
| JsCore.SplitJoinReplaces | server/Utils/ApiFeature.js:55 | `split(a).join(b)` replaces every `a` with `b` and nothing else |
| JsCore.Round | server/Model/productModel.js:69 | `Math.round` is within one half of its argument, halves going up |
| JsCore.FindIndex | client/src/Redux/Cart_Reducer/reducer.jsx:12-14 | `findIndex` returns the first index whose element passes, and -1 (here `None`) exactly when none does |
| JsCore.Filter | client/src/Redux/Cart_Reducer/reducer.jsx:44-48 | `filter` keeps exactly the elements that pass and never lengthens |
| JsCore.FilterAppend | client/src/Redux/Cart_Reducer/reducer.jsx:44-48 | filtering distributes over concatenation, so it keeps relative order |
| JsCore.Map | client/src/Redux/Order_Reducer/reducer.jsx:23-27 | `map` keeps the length and applies the function at each position |
| JsCore.Get | server/Utils/ApiFeature.js:32-38 | reading a property succeeds exactly when the object has that key |
| ShopModel.FilterByStatus | client/src/Pages/Customer/Order.jsx:97-100 | the "all" filter keeps every order, and any other filter is the order-preserving filter of the orders with that status |
| ShopModel.StatusFilterAppend | client/src/Pages/Customer/Order.jsx:97-100 | the status filter distributes over concatenation and keeps a single order exactly when the filter is "all" or the status matches, so the shown orders keep their relative order |
| ProductCard.StockLabel | client/src/Component/ProductCard.jsx:96-101 | the card says "In Stock" only for a stock of at least one, and "Out of Stock" for zero, a negative or an absent stock |
| ProductCard.BareIdStockShowsOutOfStock | client/src/Component/ProductCard.jsx:96-101 | after a stock update whose payload is a bare id, the matching product's card shows "Out of Stock" whatever it held before, and every other card is unchanged |

## Left out

- Database access is not modelled. Mongoose queries, `countDocuments`, `create`, `findByIdAndUpdate` and `findByIdAndDelete` become a `map` from id to document, or results passed in by the caller. The fetched page and the matching count in `getAllProduct` are parameters.
- The text-index and regular-expression search in `search()` is not modelled. `Product` is never imported in `server/Utils/ApiFeature.js`, so any non-empty search term raises before that code runs, and the model stops there.
- The duplicate-name lookup uses an unescaped case-insensitive `$regex`. It is modelled as equality after lower-casing, so names holding regular-expression metacharacters are not covered.
- JWT signing and verification, bcrypt hashing and comparison, cookies and rate limiting are not modelled. Verification outcomes, user lookups, password checks and the hash function are parameters.
- The Mongo duplicate-key error (code 11000) and `ValidationError` branches of `Register` are not modelled. They come from the store's unique index and the user schema, and `server/Model/userModel.js` is not part of this model.
- The product price getter `toFixed(2)` is not modelled, because it is floating-point formatting. Neither are the tax (`subtotal * 0.1`), the displayed total or any `toFixed` output. JavaScript numbers are exact reals, so NaN, infinities and rounding do not arise.
- Request-body values are limited to undefined, null, booleans, numbers and strings. Array and object values, which `express.json` can deliver, are not modelled, so neither is `parseFloat` reading the first element of an array nor the TypeError a string method raises on an array.
- `parseFloat`, `parseInt` and `Number` read plain decimal text only. Exponents, hexadecimal prefixes, `Infinity` and numeric separators are not modelled.
- `trim` knows the ASCII whitespace and a few Unicode spaces, not the whole Unicode space class. `toLowerCase` folds ASCII letters only.
- String lengths count Dafny characters rather than UTF-16 code units.
- ProductPage.Before compares Unicode scalar values, not UTF-16 code units. The two orders differ between characters above U+FFFF and characters from U+E000 to U+FFFF.
- ProductPage.Serialize does no percent-encoding of names and values, which `URLSearchParams.toString` does. The round trip through the URL therefore holds for the decoded text only.
- Express's parsing of the query string (such as `price[gte]=10` into nested objects) happens before `ApiFeature`. The model takes the parsed query as an ordered list of keys and values. JSON escaping of quotes and backslashes in the operator rewrite is not modelled.
- `localStorage`, the store's persistence throttle, the category cache, `FileReader` previews, base64 conversion, `fetch`/`axios`, `AbortController` timeouts, toasts, navigation timers and scrolling are not modelled. A failed file conversion or request is an absent input.
- Clocks and ids are parameters: `Date.now()` and `new Date()` become integers passed in by the caller. At checkout the order id and the two stamps are three separate readings. Invalid dates, which would make the recent-orders comparison NaN, are not modelled.
- `isValidObjectId` is not modelled. Nothing in the server calls it, and the controllers use their own 24-hex-digit check, which is modelled.
- The Login page, the profile, header and routing components, and `server/Model/userModel.js` are not part of this model. Their payload shape `{ token, user }` is taken from the Register page, which uses the same one.
- The detail page's `inStock` gate on the quantity selector (client/src/Pages/Customer/ProductDetail.jsx:178,459) decides only what is rendered. The selector's behaviour once shown is in `ProductDetail.SelectorBounds`.
- ProductCard.AddPayloadOf requires a present stock, because a cart line's stock is a number in the model. The product reducer can leave a product's stock undefined, and the cart behaviour of such a line is not modelled.
- ProductDetail.AddToCartAction requires a present stock when a product is selected, for the same reason. So does `ProductDetail.DetailPage.HandleAddToCart`.
- ProductController.UpdateResult treats a `null` value for a string path as a cast failure with the 500 reply. Mongoose would store `null` for an optional path such as `brand` or `image`.
- AdminPage.StatusConfig and OrderPage.StatusConfig give the processing badge for every unknown status. In the source a status naming an `Object.prototype` member (such as `"constructor"`) would find that member instead.
- AdminPage.RecentOrders does not state that orders with equal dates keep their store order. The stable sort does keep it, and `InsertByDate` is written to.
- The order-history page lists every order in the store, whoever placed it, because the source filters by status only. There is no per-user view to model.

## Findings

| source | as written | input that shows it | evidently intended | confidence | as-written member | corrected member |
|---|---|---|---|---|---|---|
| server/Controller/userController.js:30-51 | the reserved-address check compares the raw address, lower-cased but not trimmed, while the account is stored under the trimmed address | `" admin@shop.com"` with the reserved address `admin@shop.com`: the check passes and the reserved address is registered | no variant of the reserved address can be registered | not executed | UserController.ReservedBypassedBySpace | UserController.FixedNeverRegistersReserved |
| client/src/Component/ProductCard.jsx:23-33 | a click on a product already in the cart dispatches UPDATE_CART_ITEM with one more unit, and the reducer does not clamp updates | a line with quantity 2 and stock 2: one click gives quantity 3 | the line stays within its stock, as INCREASE_QTY and the detail page ensure | not executed | ProductCard.CardPushesAboveStock | ProductCard.FixedCardKeepsValid |
| client/src/Redux/Auth_Reducer/reducer.jsx:35-42 | the reducer stores `payload.User`, but the pages dispatch `{ token, user }` | any sign-in or sign-up: the store is authenticated with `user` absent, so the admin guard sends an administrator to /signin and checkout places orders as "guest" | the signed-in user is stored | not executed | AuthReducer.LoginLosesUser | AuthReducer.LoginKeepsUserFixed |
| server/Controller/userController.js:137-180 | `verifyToken` is called but never imported, so every request that carries a token ends in the catch | a valid `jwt` cookie for an existing user: the reply is 401 "Invalid token" | a valid token for an existing user is refreshed | not executed | UserController.RefreshNeverSucceeds | UserController.FixedRefreshSucceeds |
