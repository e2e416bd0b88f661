# RealEstateHub backend — a Dafny model of the controllers

This project models the decision logic of the RealEstateHub Express
backend (`Backend1`). It covers:

- the site-settings singleton;
- the property-listing handlers: create, paginated list, read, guarded
  update and delete;
- the review handlers, with their duplicate check and average rating;
- the account handlers: list, read, guarded profile update, password
  change and delete;
- login, the profile lookup and the listing search;
- the role guard placed in front of the Admin routes;
- the request-body rule sets that run before login, registration,
  bookings and reviews, and the listing rule set, which no route
  mounts.

The model makes these choices:

- **Collections.** Each MongoDB collection is a `Store.Table<R>`, a class
  whose `rows: map<Id, R>` the mutating handlers update in place. Ids come
  from a counter, so `sort({createdAt: -1})` is descending id order and the
  unsorted "natural" order is ascending id order.
- **Reads and writes.** Read-only handlers are functions of `(rows, bound)`.
  Handlers that write are methods with `modifies`.
- **Answers.** A handler that can refuse answers a `Result`, whose `Error`
  carries the HTTP status the handler sends (400, 401, 403, 404, 500).
  Handlers that cannot refuse (the list pages, the settings update, the
  profile lookup) answer their record directly.
- **Caller.** The request's user is a `Caller(user, role)`. The role is an
  `Option`, because a token need not carry one.
- **Rule sets.** Each express-validator rule set is a function from the
  request body to the list of messages of the rules it breaks, in rule
  order. An empty list lets the request through.
- **Libraries.** bcrypt (`hash`, `verify`), the e-mail check and the
  database-id check are taken as parameters. The clock is a parameter
  `now`.

Modules (one file each): `Common`, `Text`, `Paging`, `Store`, `Settings`,
`Listings`, `Reviews`, `Users`, `RoleGuard`, `Auth`, `Search`,
`Validators`.

### Where the written code and its documentation differ (the model follows the code)

- **Search.**
  - The search has no keyword parameter, no sorting and no pagination.
  - `propertyType` and `status` are matched exactly.
  - City and state are case-insensitive substring matches.
  - Prices are inclusive bounds.
- **Login token.** The token signed at login carries the user id and the
  e-mail, but no role (see Findings).
- **Duplicate review.** A second review of the same property by the same
  user is refused with 400.
- **Who is recorded.** The listing owner and the review author are taken
  from the request body, not from the authenticated caller.

## Model

| member | source | states |
|---|---|---|
| Common.Error.Code | Backend1/Controllers/realEstateControllers.js:100-112 | every error answer carries a 4xx or 5xx status, and 500 exactly for the server error |
| Text.Trim | Backend1/Validator/bodyvalidator.js:16-21 | `trim()` never lengthens a field and leaves no white space at either end |
| Text.TrimRemovesEnds | Backend1/Validator/bodyvalidator.js:16-21 | trimming removes exactly the leading and the trailing white space: the result is the piece of the input between them, and everything before and after it is white space |
| Text.TrimKeepsInfix | Backend1/Validator/bodyvalidator.js:16-21 | the trimmed value is a piece of the input, and it is empty exactly when the input is all white space (so `notEmpty` after `trim` refuses blank fields) |
| Text.TrimIdempotent | Backend1/models/RealEstateSchema.js:5-9 | trimming an already trimmed value (the rule set's trim, then the schema's trim setter) changes nothing |
| Text.Lower | Backend1/Controllers/autoControllers.js:56-63 | ASCII lower-casing keeps the length and maps each character on its own |
| Text.Join | Backend1/middleware/verifyRole.js:13 | `join(" or ")` of one role is that role, and the result starts with the first role |
| Paging.Skip | Backend1/Controllers/realEstateControllers.js:38 | `(page - 1) * limit` is a whole number of pages, and it is 0 on the first page |
| Paging.QueryOf | Backend1/Controllers/realEstateControllers.js:37 | a `page` or `limit` the request leaves out takes the handler's default, and one it gives is used as given |
| Paging.PageOf | Backend1/Controllers/realEstateControllers.js:40-44 | a page holds at most `limit` records, namely the records that follow the skipped ones, in order |
| Paging.PageCount | Backend1/Controllers/realEstateControllers.js:53 | `Math.ceil(total / limit)` is the fewest pages of `limit` records that hold `total` records, and it is 0 exactly when there are no records |
| Paging.PageNonEmptyIff | Backend1/Controllers/realEstateControllers.js:38-53 | a page is non-empty exactly when its number is at most the reported page count |
| Paging.PageHolds | Backend1/Controllers/realEstateControllers.js:38-44 | every record appears on a page: record i sits at position `i % limit` of page `i / limit + 1` |
| Store.NewestFirst | Backend1/Controllers/realEstateControllers.js:40-44 | `find(filter).sort({createdAt: -1})` lists exactly the matching records, with no repeats, newest first |
| Store.OldestFirst | Backend1/Controllers/autoControllers.js:77 | an unsorted `find(filter)` lists exactly the matching records, oldest first |
| Store.CountIsListingLength | Backend1/Controllers/realEstateControllers.js:46 | `countDocuments(filter)` equals the length of the full sorted listing |
| Store.FindAll | Backend1/Controllers/autoControllers.js:77 | every matching document, each once, in natural order; empty exactly when nothing matches |
| Store.FindPage | Backend1/Controllers/realEstateControllers.js:40-44 | one page of the matching documents, newest first, at most `limit` long |
| Store.FindById | Backend1/Controllers/realEstateControllers.js:66-89 | the document exactly when the id is stored, and 404 otherwise; `getPropertyById` (`Listings.PropertyById`) and `getReviewById` (`Reviews.ReviewById`, Backend1/Controllers/reviewControllers.js:87-111) are this lookup |
| Store.OwnedAccess | Backend1/Controllers/realEstateControllers.js:98-112 | 404 for an unknown id, whoever asks; then 403 exactly when the caller is neither the owner nor an Admin; otherwise the write may go ahead |
| Store.Table.Insert | Backend1/Controllers/reviewControllers.js:27-32 | a save stores the document under a fresh id, newer than every stored one, and changes nothing else |
| Store.Table.Replace | Backend1/Controllers/realEstateControllers.js:114-118 | `findByIdAndUpdate` replaces that document alone |
| Store.Table.Delete | Backend1/Controllers/realEstateControllers.js:156 | `findByIdAndDelete` removes that document alone |
| Settings.Fresh | Backend1/models/SystemSettingSchema.js:5-15 | a new record keeps every supplied field, and an absent field takes its schema default ("Real Estate Hub", no e-mail, maintenance off) |
| Settings.Merge | Backend1/Controllers/settingControllers.js:44-48 | the name and the e-mail are replaced only by non-empty strings; the maintenance flag is replaced whenever it is supplied, `false` included |
| Settings.Upserted | Backend1/Controllers/settingControllers.js:33-51 | an update creates the record when none exists, and otherwise merges into the first record and leaves the others unchanged |
| Settings.MergeIdempotent | Backend1/Controllers/settingControllers.js:44-48 | merging the same body twice gives the same record as merging it once |
| Settings.MergeIntoFresh | Backend1/Controllers/settingControllers.js:35-48 | merging a body into the record freshly built from that body changes nothing |
| Settings.UpsertIdempotent | Backend1/Controllers/settingControllers.js:29-65 | repeating an update with the same body leaves the collection as one update does |
| Settings.UpsertLeavesOne | Backend1/Controllers/settingControllers.js:33-51 | starting from zero or one record, an update leaves exactly one |
| Settings.SettingsStore.Get | Backend1/Controllers/settingControllers.js:4-26 | 404 exactly when no record exists, and otherwise the first record |
| Settings.SettingsStore.Update | Backend1/Controllers/settingControllers.js:29-65 | the collection becomes the upserted one, and the answer is what a later read returns |
| Settings.SettingsStore.Reset | Backend1/Controllers/settingControllers.js:68-83 | every record is deleted, so a later read answers 404 |
| Listings.NewListing | Backend1/Controllers/realEstateControllers.js:4-32 | the listing is saved exactly when the required fields are present and pass the schema's validators (trimmed title non-empty, description non-empty, known type, and a known status when one is given). The saved record carries the body's title (trimmed), description, price, type, owner and location (no location when the body has none); a missing or empty status becomes "Available"; any other body answers 500 |
| Listings.Patched | Backend1/Controllers/realEstateControllers.js:114-118 | each of the seven fields is the body's value when the body carries it (the title trimmed) and the stored value otherwise; an empty body changes nothing; a validated patch of a valid listing is valid |
| Listings.AllProperties | Backend1/Controllers/realEstateControllers.js:35-63 | with `page` and `limit` defaulting to 1 and 10, the data is that newest-first page of all listings, `totalCount` is the number stored, `pages` is the ceiling, and the page is non-empty exactly when `page <= pages` |
| Listings.AddProperty | Backend1/Controllers/realEstateControllers.js:4-32 | a valid body is stored under a fresh id and nothing else changes; an invalid one answers 500 and stores nothing |
| Listings.UpdateProperty | Backend1/Controllers/realEstateControllers.js:92-132 | 404, then 403, then 500 for a patch the schema refuses, each leaving the table unchanged; otherwise that listing alone is patched |
| Listings.DeleteProperty | Backend1/Controllers/realEstateControllers.js:135-169 | 404, then 403, each leaving the table unchanged; otherwise exactly that listing is removed |
| Reviews.CreateCheck | Backend1/Controllers/reviewControllers.js:10-32 | 404 exactly for an unknown property, then 400 exactly when the (property, user) pair is already reviewed, then 500 exactly when the body fails the schema; otherwise the review is saved |
| Reviews.InsertKeepsOnePerPair | Backend1/Controllers/reviewControllers.js:19-32 | saving a review of a pair not yet reviewed keeps at most one review per pair |
| Reviews.DeleteKeepsOnePerPair | Backend1/Controllers/reviewControllers.js:173 | a deletion keeps at most one review per pair |
| Reviews.CreateReview | Backend1/Controllers/reviewControllers.js:5-46 | the body is stored as is under a fresh id, or the refusal is answered with the table unchanged; one review per pair is preserved |
| Reviews.UpdateReview | Backend1/Controllers/reviewControllers.js:114-151 | 404, then 403 unless the caller is the author or an Admin, then the schema's 500; otherwise that review alone is replaced |
| Reviews.UpdateCanDuplicate | Backend1/Controllers/reviewControllers.js:133-137 | an update runs no duplicate check: whenever one user has reviewed two different properties, an Admin may move one review onto the other's property, and one review per pair no longer holds |
| Reviews.UpdateCanDuplicateExample | Backend1/Controllers/reviewControllers.js:133-137 | a concrete table: user 1's review of property 8, moved by an Admin onto property 7, duplicates user 1's review of property 7 |
| Reviews.DeleteReview | Backend1/Controllers/reviewControllers.js:154-186 | 404, then 403, each leaving the table unchanged; otherwise exactly that review is removed |
| Reviews.RatingSum | Backend1/Controllers/reviewControllers.js:72-74 | the sum of n ratings within 1..5 lies between n and 5n |
| Reviews.AverageRating | Backend1/Controllers/reviewControllers.js:72-74 | 0 for an empty page; otherwise the mean, i.e. the average times the page length is the sum of the ratings, and it lies within 1..5 |
| Reviews.ReviewPageOf | Backend1/Controllers/reviewControllers.js:58-76 | the page both review listings answer: one newest-first page of the matching reviews, at most `limit` long, the number of all matching reviews, and the mean rating of the page |
| Reviews.AllReviews | Backend1/Controllers/reviewControllers.js:49-84 | with `page` and `limit` defaulting to 1 and 10, the data is that newest-first page of the reviews (of the property, when the query names one); `totalCount` counts every matching review; the average is the mean over the page |
| Reviews.ReviewsByProperty | Backend1/Controllers/reviewControllers.js:189-226 | 400 exactly when the query string names no property, whatever the path says; whenever it names one, the answer is `Ok` with the review page of that property, `page` and `limit` defaulting to 1 and 5 |
| Reviews.PathParameterIgnored | Backend1/routes/reviewRoute.js:17 | a request to `/property/:propertyId` without the query parameter is refused with 400 |
| Reviews.ReviewsByPropertyFromPath | Backend1/routes/reviewRoute.js:17 | with the path parameter read, every request is answered with that property's reviews (at most five by default), their total and their page mean |
| Users.ProfileOf | Backend1/Controllers/userControllers.js:41-65 | the answered account keeps the id, name, e-mail and role and leaves the password out |
| Users.Profiles | Backend1/Controllers/userControllers.js:15-16 | every listed account is projected without its password, in the same order |
| Users.AllUsers | Backend1/Controllers/userControllers.js:5-38 | with `page` and `limit` defaulting to 1 and 10, the data is that newest-first page of the accounts with the named role (all accounts when none is named), without passwords; the total counts the matching accounts |
| Users.UserById | Backend1/Controllers/userControllers.js:41-65 | the account without its password exactly when the id is stored, and 404 otherwise |
| Users.Edited | Backend1/Controllers/userControllers.js:90-108 | a non-empty name or e-mail replaces the stored one; the role changes exactly when an Admin sends a non-empty role; the password is never touched |
| Users.UpdateCheck | Backend1/Controllers/userControllers.js:74-108 | 404 exactly for an unknown id; 403 exactly when the caller is neither that user nor an Admin; 400 exactly when another account holds the new e-mail; the schema's 500 exactly when an Admin sets a role outside the enum; otherwise the update goes ahead |
| Users.EditKeepsUniqueEmails | Backend1/Controllers/userControllers.js:91-103 | an update that passes its checks keeps every e-mail unique |
| Users.UpdateUser | Backend1/Controllers/userControllers.js:68-128 | on a refusal nothing is written; otherwise that account alone is edited and its profile is answered; unique e-mails are preserved |
| Users.ChangePassword | Backend1/Controllers/userControllers.js:131-182 | 404, then 403, then (for callers changing their own password) 401 when the old password fails `verify`; when those checks pass, 500 exactly when no new password is given and success otherwise; on success only that account's password changes, to `hash` of the new one |
| Users.DeleteUser | Backend1/Controllers/userControllers.js:185-210 | 404 for an unknown id; otherwise exactly that account is removed |
| RoleGuard.VerifyRole | Backend1/middleware/verifyRole.js:1-19 | 401 with its message when no user is attached; the request goes on exactly when the user's role is among the allowed roles; otherwise 403 naming the allowed roles joined by " or " |
| RoleGuard.AdminGuard | Backend1/middleware/verifyRole.js:10-17 | the Admin-only guard lets a user through exactly when the user is an Admin, and otherwise answers "Access Denied. Required role: Admin" |
| Auth.CallerOf | Backend1/middleware/verifyToken.js:13-14 | the request's user is the token payload: its user id and its role claim |
| Auth.LoginUser | Backend1/Controllers/autoControllers.js:5-27 | a session exactly when some account's e-mail AND stored password equal the request's; the token names that account and its e-mail, expires in 24 hours and carries no role; otherwise 401 |
| Auth.LoginTokenRefusedByEveryGuard | Backend1/middleware/verifyRole.js:10-15 | a token from this login is refused with 403 by every role guard, and its bearer is never an Admin |
| Auth.HashedPasswordRefused | Backend1/Controllers/autoControllers.js:9 | once an account's password is stored as a hash that differs from the password, that password no longer logs in |
| Auth.SeededAdminRefused | Backend1/scripts/seedData.js:19-24 | the seeded Admin, whose password is stored hashed, cannot log in with "admin123" |
| Auth.SecureLogin | Backend1/Controllers/userControllers.js:155 | login by e-mail with the password checked by `verify` against the stored hash, and the account's role signed into the token; 401 when the e-mail is unknown |
| Auth.SecureLoginTokenPassesGuard | Backend1/middleware/verifyRole.js:10-17 | with the role in the token, a guard passes the bearer exactly when the account's role is allowed, and the bearer is an Admin exactly when the account is one |
| Auth.SecureLoginAcceptsHashedPassword | Backend1/Controllers/userControllers.js:164-168 | a password set through the password handler logs in to that account |
| Auth.GetProfile | Backend1/Controllers/autoControllers.js:29-36 | the caller's stored account exactly when the id is stored; an unknown id gives an empty 200 answer |
| Search.BuildFilter | Backend1/Controllers/autoControllers.js:48-75 | at most six conditions, and none for an empty query |
| Search.MatchesAppend | Backend1/Controllers/autoControllers.js:48-75 | a filter assembled from two parts asks what both parts ask |
| Search.FilterMeansQuery | Backend1/Controllers/autoControllers.js:48-77 | the assembled filter selects exactly the listings that meet every given parameter: exact type and status, case-insensitive city and state substrings, inclusive price bounds |
| Search.Search | Backend1/Controllers/autoControllers.js:37-91 | every stored listing that satisfies the query, each once, in natural order; `count` is their number; the answer is empty exactly when no listing satisfies the query |
| Search.EmptySearchFindsAll | Backend1/Controllers/autoControllers.js:48-77 | a search with no parameters returns every listing |
| Search.EmptyPriceRange | Backend1/Controllers/autoControllers.js:71-75 | a minimum price above the maximum price finds nothing |
| Validators.Rule | Backend1/Validator/bodyvalidator.js:4-13 | a rule contributes its message exactly when it fails |
| Validators.RequiredMinLength | Backend1/Validator/bodyvalidator.js:16-21 | a trimmed field passes exactly when it reaches the minimum length, and an empty field gets both the "required" and the length message |
| Validators.ScanMeansReaches | Backend1/Validator/bodyvalidator.js:30 | the lookahead `(?=.*[class])` matches exactly when a character of the class occurs before the first line terminator |
| Validators.PasswordPatternMeans | Backend1/Validator/bodyvalidator.js:30 | the password pattern holds exactly when a lower-case letter, an upper-case letter and a digit all occur before the first line break |
| Validators.ScanStopsAtBreak | Backend1/Validator/bodyvalidator.js:30 | a lookahead `(?=.*[class])` fails when a line terminator comes before any character of the class |
| Validators.PatternStopsAtLineBreak | Backend1/Validator/bodyvalidator.js:30 | "abcdef\nXY12" is refused, although it has all three kinds of character |
| Validators.LoginErrors | Backend1/Validator/bodyvalidator.js:4-13 | a login body passes exactly when the trimmed e-mail is an address and the password has at least 6 characters |
| Validators.RegistrationErrors | Backend1/Validator/bodyvalidator.js:15-36 | a registration passes exactly when the trimmed name has at least 2 characters, the e-mail is an address, the password has at least 6 characters with a lower-case letter, an upper-case letter and a digit, and any role given is a known role |
| Validators.RegistrationPasswordPassesLogin | Backend1/Validator/bodyvalidator.js:4-36 | every body registration accepts, login's rules accept too |
| Validators.ListingErrors | Backend1/Validator/bodyvalidator.js:39-81 | (a rule set no route mounts) a listing body passes exactly when the details and the trimmed location are valid, the pincode has 5 or 6 digits, the owner is a database id, and any status given is a known status |
| Validators.DetailsErrors | Backend1/Validator/bodyvalidator.js:40-57 | the title (3 or more characters), description (10 or more), non-negative price and known type rules pass exactly when the details are valid |
| Validators.LocationErrors | Backend1/Validator/bodyvalidator.js:58-73 | the location passes exactly when the trimmed address, city and state are non-empty and the pincode has 5 or 6 digits |
| Validators.Sanitized | Backend1/Validator/bodyvalidator.js:39-81 | were the rule set mounted before `addProperty`, the handler would receive the body with its trimmed fields trimmed, the price, type and status unchanged, and the owner the id the `owner` field names |
| Validators.AcceptedListingIsCreated | Backend1/Controllers/realEstateControllers.js:4-32 | the listing rules are stricter than the schema: a body they accept, handed to the listing handler, is never refused by the schema and the listing is created |
| Validators.BookingErrors | Backend1/Validator/bodyvalidator.js:84-121 | a booking passes exactly when both ids are valid, the name has at least 2 characters, the e-mail is an address, the phone has 10 digits, the message has at least 10 characters, and the visit date is well formed and not in the past |
| Validators.VisitDateErrors | Backend1/Validator/bodyvalidator.js:112-120 | the date passes exactly when it is present as an instant and not before now, and "in the future" is reported exactly for a past instant |
| Validators.VisitDateBoundary | Backend1/Validator/bodyvalidator.js:112-120 | a visit at the current instant is accepted, and one a moment earlier is refused with the future-date message alone |
| Validators.ReviewErrors | Backend1/Validator/bodyvalidator.js:124-140 | a review body passes exactly when both ids are valid, the rating is an integer from 1 to 5, and the trimmed comment has at least 5 characters |
| Validators.AcceptedReviewMeetsSchema | Backend1/routes/reviewRoute.js:21-22 | a review the rules accept meets the review schema, so behind these rules the handlers' schema 500 never fires |

## Left out

- The front end (`Frontend/`), the server entry point and the route wiring, beyond the routes cited above. The booking handlers and user registration are not part of this model.
- Token signing and verification (`jsonwebtoken`, the secret, expiry enforcement): only the claims a token carries, and the caller derived from them, are modelled.
- bcrypt: `hash` and `verify` are parameters of the members that use them, and salts are not modelled.
- The e-mail check, its normalisation and the database-id check of express-validator are parameter predicates. `Validator/validatemiddle` is not part of this model, so how the messages are answered is not modelled.
- Regular expressions in the search are treated as literal substrings. Patterns with metacharacters are not modelled.
- White space and case folding are ASCII only (plus the usual space characters). Unicode white space and case mappings beyond ASCII are not modelled.
- Dates are abstracted to an `Option<int>` instant. ISO 8601 parsing is not modelled.
- Prices are integers. Floating point, non-numeric strings and `isFloat` on fractions are not modelled.
- `populate`/`select` of the owner's or user's fields in answers.
- The `success`/`message` wording of answers, except where a member names the message.
- Database failures, concurrency and malformed ids. In particular, a cast error answers 500 (or 401 in `getProfile`) in the source, and this is not modelled.
- JSON `null` fields. `page`/`limit` values that are not positive integers (zero, negative, fractional or non-numeric strings) are not modelled; absent ones take their defaults.
- The listing rule set (`realEstateValidator`) is mounted on no route: the routes and the server entry point hand listing bodies to their handlers unchecked. Validators.Sanitized and Validators.AcceptedListingIsCreated state what would hold were it mounted.
- Validators.VisitDateErrors: a date that is not ISO 8601 but that `Date` still parses is not modelled; the date is abstracted to an instant that is present exactly when the field is well formed.
- References left dangling when an account, listing or review is deleted.
- Reviews.Review: the rating is modelled as required. The schema makes it optional, but the rules on both write routes require it.
- Reviews.UpdateReview: modelled as a replacement of the whole review by the body. The source applies a partial update, but the rules on the update route require every field, so the two coincide behind them.
- Reviews.AverageRating: does not model the `toFixed(1)` rounding to one decimal or its string result.
- Listings.AddProperty: a price that is not a number is not modelled. Only the schema's required, enum and trim checks are.

## Findings

| source | as written | input that shows it | evidently intended | confidence | as-written member | corrected member |
|---|---|---|---|---|---|---|
| Backend1/Controllers/autoControllers.js:15-19 | the login token carries only the user id and the e-mail, so `req.user.role` is undefined, and every role guard (Backend1/middleware/verifyRole.js:10) answers 403 | any successful login followed by a request to an Admin route, e.g. by the seeded Admin | sign the account's role into the token, so that the guards and the handlers' Admin checks see it | not executed | Auth.LoginTokenRefusedByEveryGuard | Auth.SecureLoginTokenPassesGuard |
| Backend1/Controllers/autoControllers.js:9 | login compares the request's password with the stored string, but the password handler (Backend1/Controllers/userControllers.js:165-168) and the seed script (Backend1/scripts/seedData.js:19) store bcrypt hashes | the seeded Admin logging in with "admin123", or any user after changing their password | look the account up by e-mail and check the password with bcrypt against the stored hash | not executed | Auth.SeededAdminRefused | Auth.SecureLoginAcceptsHashedPassword |
| Backend1/Controllers/reviewControllers.js:191-198 | `getReviewsByProperty` reads `propertyId` from the query string, but its route (Backend1/routes/reviewRoute.js:17) passes it as a path parameter | `GET /property/<id>` with no query string answers 400 | read `req.params.propertyId` | not executed | Reviews.PathParameterIgnored | Reviews.ReviewsByPropertyFromPath |
