# Bites: a verified model of the food-donation app's logic

Bites is a small food-donation web application. Donors list surplus food,
and recipients browse the listings and request food from them. A donor then
accepts or rejects each request, and the requester is sent a text message.
This project models in Dafny the sequential logic behind that flow:

- **Backend store and handlers** (`Db`, `DonorController`, `AuthController`,
  `AuthMiddleware`). The three MongoDB collections (users, donors, requests)
  become one `Store` class holding three maps keyed by document id, plus the
  log of SMS provider calls. Each Express handler that writes is a method over
  the store; each one that only reads is a function of the collections. Both
  keep the handler's status codes, messages and short-circuiting checks.
- **Schemas** (`UserModel`, `DonorModel`, `RequestModel`). Each schema is a
  datatype with a validity predicate covering required paths, `trim` setters
  and the status `enum`. Email uniqueness is part of the store invariant.
- **Client session** (`UserSlice`). The Redux `user` slice becomes a class
  whose three reducers assign its fields. `parseJwt` reads the payload
  segment of a compact JWS (section 7.1 of RFC 7515) after mapping the
  base64url alphabet back to base64 (sections 4 and 5 of RFC 4648).
- **Page state updates** (`Forms`, `Addfood`, `Managefood`, `Fooddetails`,
  `MyRequests`, `SignupPage`). Each `setState` updater of a React page
  becomes a pure prev→next function. The lemmas state what each update
  leaves unchanged.

JavaScript values are modelled in `JsValues`: `Option` for `undefined`,
`Scalar`/`Obj` for form state, and truthiness (`''`, `0` and `null` are
falsy). `JsText` models `split`, `startsWith` and ECMAScript `trim`.

Foreign code is abstract:
- bcrypt is a symbolic digest `Bcrypt(rounds, salt, secret)`; the random salt is a parameter.
- `jwt.sign` is a symbolic `SignedToken(payload, exp)`.
- `jwt.verify`, and `atob` followed by `JSON.parse`, are function parameters.
- Twilio is the `smsSent` log of the store.
- Clocks are integer parameters.
- `localStorage` is a field of the session class.
- Network replies (`fetch`, the reverse geocoder, geolocation) are parameters.

## Model

| member | source | states |
|---|---|---|
| `UserModel.TrimLocation` | backend/models/user.model.js:18-37 | the `trim` setters leave latitude and longitude as given and trim city and state when present; a trimmed location is kept as it is |
| `UserModel.SatisfiesSchema` | backend/models/user.model.js:3-38 | a valid user has a username that is not all whitespace, a non-empty email, and a location the `trim` setters would leave as it is |
| `JsText.TrimShape` | backend/models/user.model.js:4-8 | `trim` keeps one contiguous part of the input and drops only whitespace on each side; no whitespace is left at either end |
| `JsText.TrimIdempotent` | backend/models/donor.model.js:13-17 | a trimmed path stays as it is when trimmed again, so re-saving a document does not change it |
| `JsText.TrimEmptyIffAllSpace` | backend/models/donor.model.js:13-17 | a value trims to the empty string, and so fails the `required` check, exactly when it is all whitespace |
| `DonorModel.NewDonor` | backend/models/donor.model.js:11-73 | the new document gets the given owner, a trimmed name, the address and food items as given, trimmed location text and both timestamps; it satisfies the schema exactly when the required paths pass their validators |
| `DonorModel.SatisfiesSchema` | backend/models/donor.model.js:11-73 | a valid listing has a name that is not all whitespace, and a location the `trim` setters would leave as it is |
| `DonorModel.Patched` | backend/controllers/donor.controller.js:72 | every path in the update takes the update's value (the name and location through their `trim` setters), every path missing from it keeps its value, `createdAt` is kept and `updatedAt` refreshed; a valid document stays valid under an update that passes the update validators |
| `RequestModel.DefaultStatus` | backend/models/request.model.js:18 | the default status is `Pending`, one of the three values of the `enum` |
| `RequestModel.SatisfiesSchema` | backend/models/request.model.js:3-19 | a valid request has its required paths and a status from the `enum`; with the default status, validity is exactly having the required paths |
| `Db.Store.constructor` | backend/models/user.model.js:9-13 | the store starts with empty collections, no SMS sent, and its invariant holds (ids below the counter, unique emails, every document valid) |
| `DonorController.FormatPhone` | backend/controllers/donor.controller.js:15 | the number keeps all its digits at the end and starts with `+`; it grows exactly when it did not start with `+` |
| `DonorController.SmsRequest` | backend/controllers/donor.controller.js:13-28 | the provider is called exactly when the formatted number has 13 characters, to that number with the given body; nothing else can come out of the call |
| `DonorController.SmsSentExactlyFor` | backend/controllers/donor.controller.js:15-16 | the numbers that reach the provider are the 13-character `+` numbers and the 10-character local ones, and a local one is sent as `+91` followed by it |
| `DonorController.StatusMessage` | backend/controllers/donor.controller.js:177-182 | there is a message exactly for `Accepted` and `Rejected`, each naming the requester; any other status gives `undefined` |
| `DonorController.DonationForm` | backend/controllers/donor.controller.js:30-47 | an unregistered email gives 400 and a document failing validation gives 500, both with the store unchanged; otherwise 201 and one new donor owned by the user with that email, whatever `userId` the body carried |
| `DonorController.UpdateDonor` | backend/controllers/donor.controller.js:70-80 | an update failing its validators gives 500, an unknown id 404, both with the store unchanged; otherwise the one donor is replaced by its patched version and returned |
| `DonorController.DonationsOf` | backend/controllers/donor.controller.js:85 | the listings returned are exactly those whose `userId` is the given owner, unchanged |
| `DonorController.DonationsOfAfterInsert` | backend/controllers/donor.controller.js:37-43 | a newly saved listing joins its owner's donations and no other user's |
| `DonorController.GetDonationsByUserId` | backend/controllers/donor.controller.js:82-90 | always 200, with exactly the owner's listings as stored, even when there are none |
| `DonorController.GetUserDonations` | backend/controllers/donor.controller.js:130-147 | 400 exactly for a missing user id; 404 exactly when the user owns no listing; otherwise 200 with a non-empty set of the user's listings |
| `DonorController.UserDonationHandlersAgree` | backend/routes/donor.route.js:8-12 | the two near-duplicate handlers return the same listings and differ only for an owner with none |
| `DonorController.NumberOrNull` | backend/controllers/donor.controller.js:117-118 | a coordinate is kept exactly when it is present and non-zero; `0` becomes `null` |
| `DonorController.NewRequest` | backend/controllers/donor.controller.js:105-120 | the request takes its `userId` from the listing, its name from `name`, the address parts and description as given, coordinates through `x \|\| null`, and status Pending; it satisfies the schema |
| `DonorController.RequestFood` | backend/controllers/donor.controller.js:91-128 | a falsy required field gives 400 before any lookup, an unknown listing 404, both with the store unchanged; otherwise 200 and exactly one new request, built from the listing |
| `DonorController.RequestsFor` | backend/controllers/donor.controller.js:152 | the requests returned are exactly those whose `userId` is the owner, whichever listing they name |
| `DonorController.GetRequestsForDonor` | backend/controllers/donor.controller.js:149-158 | always 200, with exactly the requests against the owner's listings, as stored |
| `DonorController.NewRequestReachesOwner` | backend/controllers/donor.controller.js:105-107 | a new request shows up for the listing's owner and no one else, and every earlier request is still listed |
| `DonorController.StatusUpdated` | backend/controllers/donor.controller.js:166-170 | only the status of that one request changes; every other request and every other field is kept |
| `DonorController.StatusUpdateIdempotent` | backend/controllers/donor.controller.js:166-170 | setting the same status twice stores the same as setting it once |
| `DonorController.StatusUpdateSchema` | backend/controllers/donor.controller.js:166-170 | after the update the request still satisfies the schema exactly when the new status is in the `enum`, whatever the prior status was |
| `DonorController.GetStatus` | backend/controllers/donor.controller.js:160-191 | an unknown id gives 404 with the store unchanged; otherwise the status is overwritten with any value, the provider is called at most once, exactly when the requester's formatted number has 13 characters, with the status message (possibly `undefined`), and 200 returns the updated request |
| `AuthController.HashPassword` | backend/controllers/auth.controller.js:12 | the digest uses 10 rounds and matches exactly the password it was made from |
| `AuthController.NewUser` | backend/controllers/auth.controller.js:13 | the new user has a trimmed username, the given email, the hash of the password (never the plaintext) and both timestamps; it satisfies the schema exactly when the trimmed username and the email are non-empty |
| `AuthController.Signup` | backend/controllers/auth.controller.js:7-20 | a falsy username, email or password gives 400, a blank username gives 500, a taken email 500 with the duplicate-key message, all with the store unchanged; otherwise 201 and exactly one new user, with the unique-email invariant kept |
| `AuthController.TokenPayload` | backend/controllers/auth.controller.js:30-36 | the payload has the id, plus state and city when both are truthy and otherwise latitude and longitude; it never has both pairs |
| `AuthController.PublicView` | backend/controllers/auth.controller.js:40-41 | the user sent back carries the id and every stored path but the password |
| `AuthController.SignIn` | backend/controllers/auth.controller.js:21-45 | 404 exactly when no user has the email; for a known email, 500 exactly when the body has no password, 401 exactly when the password does not match; no other failure; a success has a token that expires seven days after signing and a user view without the password |
| `AuthController.SignupThenSignIn` | backend/controllers/auth.controller.js:7-45 | after signing up, signing in with the same password returns the new user with a seven-day token, and any other password gets 401 |
| `AuthMiddleware.BearerToken` | backend/middlewares/auth.middleware.js:4 | the token is the second space-separated piece of the header; there is none without a header |
| `AuthMiddleware.BearerTokenOfScheme` | backend/middlewares/auth.middleware.js:4 | a header `Bearer <token>` as in section 2.1 of RFC 6750 yields exactly that token |
| `AuthMiddleware.BearerTokenNeedsSpace` | backend/middlewares/auth.middleware.js:4-6 | a header with no space holds no token |
| `AuthMiddleware.Authorize` | backend/middlewares/auth.middleware.js:3-14 | 401 exactly when no truthy token is found, 403 exactly when verification rejects it, and otherwise pass on with the verified id |
| `AuthMiddleware.IssuedTokenPasses` | backend/middlewares/auth.middleware.js:3-14 | a request carrying `Bearer` and a token that verifies passes with that token's id |
| `AuthMiddleware.AuthenticateToken` | backend/middlewares/auth.middleware.js:3-14 | a refused request gets the status and message, with `next` not called and `userId` not set; an accepted one gets `userId`, and `next` is called exactly once |
| `UserSlice.ReplaceAll` | frontend/src/reducers/userSlice.js:6 | every occurrence of one character is replaced and every other character is kept, in place |
| `UserSlice.ToBase64Alphabet` | frontend/src/reducers/userSlice.js:6 | on base64url text the rewrite gives base64 text, `+` exactly where there was `-` and `/` exactly where there was `_` |
| `UserSlice.ParseJwt` | frontend/src/reducers/userSlice.js:3-16 | a token with no second `.` segment gives null; otherwise the result is the decoding of that segment after the alphabet rewrite, and a failing decode is null, never an exception |
| `UserSlice.ParseCompactToken` | frontend/src/reducers/userSlice.js:5-11 | a three-segment compact token is decoded from its middle segment |
| `UserSlice.ParseDotlessText` | frontend/src/reducers/userSlice.js:5-15 | text without a dot never decodes to a user |
| `UserSlice.Session.constructor` | frontend/src/reducers/userSlice.js:20-23 | the initial state has no user and is not authenticated |
| `UserSlice.Session.SetUser` | frontend/src/reducers/userSlice.js:25-32 | a decodable token sets the user to its claims plus the token, authenticates and stores the token; an undecodable one changes nothing |
| `UserSlice.Session.Logout` | frontend/src/reducers/userSlice.js:33-37 | no user, not authenticated, no stored token |
| `UserSlice.Session.InitializeUser` | frontend/src/reducers/userSlice.js:38-59 | authenticated exactly when a stored token decodes and its `exp` is later than now; a stored token that fails is removed; without one only the flag is cleared; a failure keeps `currentUser` |
| `UserSlice.SignInThenReload` | frontend/src/reducers/userSlice.js:25-59 | a live token survives a reload, and after logout a reload authenticates no one |
| `Forms.Route` | frontend/src/pages/Addfood.jsx:43-59 | a nested name changes only that key of the nested object, any other name only that key at top level |
| `Forms.RouteLastWriteWins` | frontend/src/pages/Fooddetails.jsx:48-64 | typing into an input twice keeps only the second value |
| `Forms.RouteCommutes` | frontend/src/pages/Signup.jsx:15-34 | updates of two different inputs give the same form in either order |
| `Forms.HandleInputChange` | frontend/src/pages/Addfood.jsx:43-59 | street, city, state, postalCode and country go into `address`, every other name to the top level; food items are untouched |
| `Forms.AddFoodItem` | frontend/src/pages/Addfood.jsx:124-138 | exactly one default item is appended and every earlier item is kept |
| `Forms.RemovedAt` | frontend/src/pages/Addfood.jsx:141-150 | the element at the index is gone and the rest keep their order; past the end nothing changes |
| `Forms.RemovedAtMultiset` | frontend/src/pages/Managefood.jsx:171-180 | removal takes away exactly one occurrence of the removed item |
| `Forms.RemoveFoodItem` | frontend/src/pages/Addfood.jsx:141-150 | only the food list changes, by removing the item at the index |
| `Forms.RemoveUndoesAdd` | frontend/src/pages/Managefood.jsx:155-180 | removing the item just added gives the form back |
| `Forms.HandleFoodItemChange` | frontend/src/pages/Addfood.jsx:153-166 | only the named field of item i changes; every other item and field is kept |
| `Forms.FoodItemChangeUndone` | frontend/src/pages/Managefood.jsx:140-153 | typing a field's old value back restores the form |
| `Forms.GeocodedAddress` | frontend/src/pages/Managefood.jsx:56-66 | road→street, county→city, state, postcode→postalCode and country, each falsy part `''`, so every part is `''` or a truthy value |
| `Forms.GeocodedAddressRoundTrip` | frontend/src/pages/Addfood.jsx:89-98 | a reply naming the parts of an address whose parts are each `''` or truthy gives that address back: the renaming loses nothing |
| `Forms.Geocoded` | frontend/src/pages/Fooddetails.jsx:85-109 | a found address replaces the whole address with the acquired status; a reply without one or a failed request keeps the address and shows its own status |
| `Forms.Toggled` | frontend/src/pages/Addfood.jsx:38-40 | toggling the open dropdown closes it; any other name opens that one |
| `Addfood.InitialForm` | frontend/src/pages/Addfood.jsx:4-27 | every text field is empty, the address has its five empty parts, and there is one default food item |
| `Addfood.ValidateForm` | frontend/src/pages/Addfood.jsx:168-178 | the required-fields message exactly when name, email, contact number or availableUntil is falsy; otherwise the food-item message exactly when some item lacks name, quantity or expiry date; otherwise none |
| `Addfood.InitialFormIsIncomplete` | frontend/src/pages/Addfood.jsx:4-27 | the initial form, and so the form after a successful submit, fails validation on the required fields |
| `Addfood.AddedItemNeedsFilling` | frontend/src/pages/Addfood.jsx:124-138 | after an item is added, the form fails validation until that item is filled in |
| `Addfood.RemovingKeepsValid` | frontend/src/pages/Addfood.jsx:141-150 | removing an item never makes a valid form invalid |
| `Addfood.HandleSubmit` | frontend/src/pages/Addfood.jsx:180-211 | a validation error is shown and nothing is sent; otherwise the form is sent and loading ends; success resets it to the initial form and shows the success message, failure shows the reply's message or the default, a thrown request the error text; nothing else on the page changes |
| `Addfood.ApplyPosition` | frontend/src/pages/Addfood.jsx:76-80 | a position fix writes latitude and longitude at the top level and changes nothing else |
| `Addfood.ApplyGeocode` | frontend/src/pages/Addfood.jsx:88-107 | a found address replaces the whole address; otherwise only the status message changes |
| `Addfood.LocatingKeepsValidation` | frontend/src/pages/Addfood.jsx:70-121 | locating the donor never changes the outcome of validation |
| `Managefood.LoadDonations` | frontend/src/pages/Managefood.jsx:13-44 | no token gives an error and no fetch; a token without a second segment or with an undecodable one gives the generic error; otherwise the `id` claim of the rewritten segment names the donations fetched |
| `Managefood.LoadsOwnDonations` | frontend/src/pages/Managefood.jsx:24-30 | with a compact token whose payload carries the id, the page fetches that user's donations |
| `Managefood.FinishLoad` | frontend/src/pages/Managefood.jsx:30-40 | loading always ends; received donations replace the list and a failure sets an error |
| `Managefood.ReplacedById` | frontend/src/pages/Managefood.jsx:96 | length is kept and exactly the entries with the edited id are replaced |
| `Managefood.ReplacedByUniqueId` | frontend/src/pages/Managefood.jsx:96 | with unique ids, exactly the one position is replaced |
| `Managefood.ReplacedByAbsentId` | frontend/src/pages/Managefood.jsx:96 | an id no listing has replaces nothing |
| `Managefood.HandleSave` | frontend/src/pages/Managefood.jsx:85-104 | a successful save replaces the edited listing by the reply and ends edit mode; a failed one sets the error and keeps the list |
| `Managefood.SaveReplacesEditedListing` | frontend/src/pages/Managefood.jsx:94-103 | with unique ids, a success replaces only the edited position, and a failure keeps the list and shows the error |
| `Managefood.HandleEditClick` | frontend/src/pages/Managefood.jsx:77-83 | edit mode is the donor's `_id` and the donor is copied into the form; geocoding is requested exactly when both coordinates are truthy |
| `Managefood.ApplyGeocode` | frontend/src/pages/Managefood.jsx:50-75 | a found address replaces the edited donor's whole address; otherwise only the status changes |
| `Managefood.HandleChangeAsWritten` | frontend/src/pages/Managefood.jsx:106-112 | every input name, the address names included, is written at the top level of the edited donor |
| `Managefood.AddressEditIsLost` | frontend/src/pages/Managefood.jsx:283-290 | as written, typing into an address input changes neither what the input shows nor the address that is saved |
| `Managefood.StreetTypingLost` | frontend/src/pages/Managefood.jsx:283-290 | typing `Main St` into an empty street input leaves it showing `''` |
| `Managefood.HandleChange` | frontend/src/pages/Managefood.jsx:106-112 | the corrected update: address names go into `address` and all others to the top level |
| `Managefood.HandleChangeShowsEdits` | frontend/src/pages/Managefood.jsx:283-290 | with the corrected update a typed address value is shown, and every other input behaves as written |
| `Managefood.DisplayedAddress` | frontend/src/pages/Managefood.jsx:283-321 | an address input shows `''` or a truthy value: the address part when it is truthy, `''` otherwise |
| `Fooddetails.BlankForm` | frontend/src/pages/Fooddetails.jsx:12-25 | the five top-level fields and the five address parts are all `''` |
| `Fooddetails.HandleInputChange` | frontend/src/pages/Fooddetails.jsx:48-64 | the five address names go into `address`, every other name to the top level |
| `Fooddetails.Select` | frontend/src/pages/Fooddetails.jsx:133-147 | exactly the requested keys that are present are copied |
| `Fooddetails.BuildBody` | frontend/src/pages/Fooddetails.jsx:133-147 | the body has `donorId` = listing `_id`, the form's name, contact number and description, only the five address parts, and coordinates with falsy values sent as null |
| `Fooddetails.HandleRequestSubmit` | frontend/src/pages/Fooddetails.jsx:125-173 | success shows the reply's message and blanks the form; failure shows the reply's message or the default; a thrown request shows the error text |
| `Fooddetails.BlankFormSendsNullCoordinates` | frontend/src/pages/Fooddetails.jsx:144-145 | a request from the blank form sends null coordinates and an empty address |
| `Fooddetails.ToggleRequestForm` | frontend/src/pages/Fooddetails.jsx:203 | the toggle flips `showRequestForm` and nothing else |
| `Fooddetails.ApplyPosition` | frontend/src/pages/Fooddetails.jsx:78-83 | the fix writes the coordinates at the top level and keeps the address |
| `Fooddetails.PositionIsSent` | frontend/src/pages/Fooddetails.jsx:78-83 | a non-zero coordinate from a fix is what the next request carries, and a zero one goes out as null |
| `Fooddetails.ApplyGeocode` | frontend/src/pages/Fooddetails.jsx:85-109 | a found address replaces the whole address; otherwise only the status changes |
| `MyRequests.LoadRequests` | frontend/src/pages/MyRequests.jsx:12-35 | a missing user id gives an error and no fetch; otherwise that user's requests are fetched |
| `MyRequests.FinishLoad` | frontend/src/pages/MyRequests.jsx:19-32 | loading always ends; received requests replace the list and a failure sets the error |
| `MyRequests.BeginStatusChange` | frontend/src/pages/MyRequests.jsx:37-39 | the request and the action being sent are recorded, and nothing else changes |
| `MyRequests.StatusSet` | frontend/src/pages/MyRequests.jsx:53-57 | length is kept; exactly the requests with the id get the new status and keep their other fields |
| `MyRequests.StatusSetAtUniqueId` | frontend/src/pages/MyRequests.jsx:53-57 | with unique ids only that one request changes, and only in its status |
| `MyRequests.StatusSetIdempotent` | frontend/src/pages/MyRequests.jsx:53-57 | setting a status twice shows the same list as setting it once |
| `MyRequests.HandleStatusChange` | frontend/src/pages/MyRequests.jsx:37-65 | success shows the new status; failure keeps the list and sets the error; either way the loading id and action return to null and `''` |
| `MyRequests.StatusLabel` | frontend/src/pages/MyRequests.jsx:83 | the status label is never blank: the status when truthy, `Pending` otherwise |
| `MyRequests.ShowsDecisionButtons` | frontend/src/pages/MyRequests.jsx:85 | the decision buttons are shown only on a request labelled `Pending` |
| `MyRequests.DecisionButtonsOnlyWhenPending` | frontend/src/pages/MyRequests.jsx:83-102 | Accept and Reject appear only on a request whose status is `Pending`; a missing status is shown as Pending but offers no buttons |
| `MyRequests.DecidedRequestHasNoButtons` | frontend/src/pages/MyRequests.jsx:53-102 | once a decision is recorded, the request shows it and offers no more buttons |
| `MyRequests.ButtonDisabled` | frontend/src/pages/MyRequests.jsx:86-100 | a disabled button belongs to the request being sent; the button of the action being sent is never disabled, and once loading is reset to null no button of a request with an id is |
| `MyRequests.OnlyTheOtherButtonIsDisabled` | frontend/src/pages/MyRequests.jsx:90-97 | while Accept is being sent, that request's Reject button is disabled and its Accept button is not; other requests are not affected |
| `SignupPage.InitialForm` | frontend/src/pages/Signup.jsx:5-7 | the form starts with nothing but an empty `location` |
| `SignupPage.HandleChange` | frontend/src/pages/Signup.jsx:15-34 | ids `city` and `state` go into `location`, every other id to the top level |
| `SignupPage.ApplyPosition` | frontend/src/pages/Signup.jsx:41-52 | latitude and longitude are merged into `location`, keeping its other fields, and `locationUsed` becomes true |
| `SignupPage.TypedCitySurvivesFix` | frontend/src/pages/Signup.jsx:44-47 | a fix taken after typing the city keeps the typed city |
| `SignupPage.PositionFailed` | frontend/src/pages/Signup.jsx:54-57 | a geolocation error sets the error flag and the failure status, and nothing else changes |
| `SignupPage.HandleSubmit` | frontend/src/pages/Signup.jsx:70-93 | `success === false` or a thrown request sets the error and stays on the page; any other reply goes to `/signin` |
| `SignupPage.SubmitSignup` | frontend/src/pages/Signup.jsx:70-93 | against the sign-up endpoint the page goes to `/signin` exactly when the account was created; otherwise the store is unchanged |

## Left out

- Database driver failures, and the 500 answers of the handlers' `catch` blocks for them, are not modelled. Malformed ids (Mongoose `CastError`) are not modelled either: ids are natural numbers.
- ObjectId generation is a counter. The unique index on `email` is checked by the store before insertion, not by MongoDB.
- `avldatalist` and `getid` (list all listings, get one listing) are plain reads with no logic beyond the lookup.
- Twilio is modelled only as the log of calls it receives. Its own failures are swallowed by the source and have no effect there, so the model has none.
- bcrypt, `jwt.sign`/`jwt.verify`, `atob`, `decodeURIComponent` and `JSON.parse` are abstract. A bcrypt digest matches exactly its own password, with no collisions.
- The `errorHandler` of backend/utils/error.js is not part of this model. It is taken to build an error carrying the given status code and message.
- Routing: backend/routes/donor.route.js:12 is shadowed by line 8, so over HTTP only `getDonationsByUserId` answers. Both handlers are modelled.
- The middleware is modelled as written. No route in the source applies it.
- Time is an integer parameter: seconds in the backend, milliseconds in the client. Date parsing and display formatting are left out.
- Async interleaving of React updates is left out. Each handler is one step from one state to the next.
- Managefood's `handleLocationMethodChange` (frontend/src/pages/Managefood.jsx:114-138) is not modelled on its own. It writes the fix at the top level of the donor, as `Addfood.ApplyPosition` does; its geocoding step is `Managefood.ApplyGeocode`.
- JSX rendering is left out, apart from the status label and the button rules of the My Requests page and the address inputs of Managefood (`Managefood.DisplayedAddress`).
- Forms.HandleFoodItemChange: requires an index inside the list, because the pages only call it from the rendered items. Assigning past the end of a JavaScript array is not modelled.
- `SignInThenReload`, `SignupThenSignIn` and `SubmitSignup` are scenario methods. They tie several operations together and model no single source function.
- AuthController.Signup: the duplicate-email failure states only the `E11000 duplicate key error` prefix of MongoDB's message; the collection, index and key it goes on to name are not modelled.
- AuthController.SignIn: a password of a type other than string (which `compareSync` also rejects) is not modelled; the body's password is either a string or missing.

## Findings

| source | as written | input that shows it | evidently intended | confidence | as-written member | corrected member |
|---|---|---|---|---|---|---|
| frontend/src/pages/Managefood.jsx:106-112 | `handleChange` writes every input name at the top level of `currentDonor`, but the address inputs display `currentDonor.address?.street` etc. (lines 283-300) | editing a donor with an empty address and typing `Main St` into the street input: the input still shows `''`, and the saved document's `address` is unchanged | route the five address names into `address`, as Addfood.jsx:43-59 does | high (not executed) | `Managefood.StreetTypingLost` | `Managefood.HandleChangeShowsEdits` |
