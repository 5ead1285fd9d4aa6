# Travel planner core, modelled in Dafny

This project models the core of a travel-planning web application. The
application has an Express backend over PostgreSQL and a React frontend. The
model covers five parts:

- **Trips** (`backend/routes/trips.js`): CRUD on the `trips` table, scoped to
  the owner. Every read, update and delete is restricted to the caller's rows.
  The PUT route builds a partial `UPDATE` statement with numbered
  placeholders. The table lives in the class `Trips.TripStore`. Create, update
  and delete are methods proved against the pure functions `NewTrip`,
  `PatchRows` and `Without`.
- **Destinations** (`backend/routes/destinations.js`): the read-only catalog.
  - Listing with an optional category, newest first, with LIMIT/OFFSET
    paging.
  - Case-insensitive search over name, description and location.
  - Lookup by id.
  - The query builder's placeholder numbering, proved correct.
- **Accounts** (`backend/routes/auth.js`): register, login and the current
  user.
  - The `users` table is a map from email to row in the class
    `Auth.UserStore`.
  - Password hashing and the comparison function are function values. Their
    one assumed property is `Auth.Sound`.
  - A token is the record of what the signer receives: the claims, the
    secret and the lifetime.
- **Client session** (`frontend/src/context/AuthContext.tsx`): the React
  `user` and `token`, the `token` entry of localStorage and the default
  `Authorization` header. They are the fields of `AuthContext.Session`, and
  each handler is a method. An awaited request is an argument that holds its
  outcome.
- **Trip form** (`frontend/src/pages/CreateTrip.tsx`): the destination
  checkbox toggle, and the body the form submits.

SQL behaviour that the routes rely on is modelled in `Seqs` and `Sql`:

| SQL | Model |
|---|---|
| WHERE | `Seqs.Filter` |
| ORDER BY created_at DESC | `Seqs.SortDesc`, an insertion sort |
| LIMIT/OFFSET | `Seqs.Page` |
| binding placeholders `$n` | `Sql.Param` |

The field validators are predicates in `Validators`.

## Model

| member | source | states |
|---|---|---|
| Seqs.Filter | backend/routes/trips.js:57-60 | The rows kept are exactly those satisfying the condition, each with its multiplicity, in their original order (subsequence). |
| Seqs.SortDesc | backend/routes/trips.js:14-17 | The result is ordered by created_at, newest first, and is a permutation of the input. |
| Seqs.Page | backend/routes/destinations.js:20-21 | The result skips `offset` rows and keeps min(limit, remaining) of them. Row i of the page is row offset+i of the input. |
| Seqs.PagesAdjacent | backend/routes/destinations.js:20-21 | The page at offset o of size a, followed by the page at offset o+a of size b, is the page at offset o of size a+b. |
| Seqs.PageOfSorted | backend/routes/destinations.js:20-21 | A page of a sorted result is sorted and contains only rows of that result. |
| Seqs.SortedUnique | backend/routes/destinations.js:20 | When no two different rows share a created_at, two orders of the same rows that are both newest first are the same order. |
| Sql.ParamAfterPush | backend/routes/trips.js:101-136 | After `paramCount++; values.push(v)`, the new count names the pushed value. Every placeholder bound before keeps its value, and the next number is still unbound. |
| Trips.Where | backend/routes/trips.js:57-60 | A row is selected iff it has the given id and belongs to the caller. |
| Trips.ListTrips | backend/routes/trips.js:12-18 | Exactly the caller's rows, each as often as it occurs in the table, newest first. |
| Trips.GetTrip | backend/routes/trips.js:54-66 | 200 with a row of the caller that has that id iff one exists; otherwise 404 "Trip not found". |
| Trips.CreateErrors | backend/routes/trips.js:26-35 | The create request is valid iff the title is non-empty and both dates are ISO 8601. Each failed validator contributes its own message. |
| Trips.NewTripDefaults | backend/routes/trips.js:37-46 | The inserted row belongs to the caller. The description is NULL iff it was missing or empty. Destinations default to []. |
| Trips.GetAfterCreate | backend/routes/trips.js:39-66 | A row inserted with a fresh id is returned by GET /:id to its owner, and 404 is returned to anyone else. |
| Trips.Without | backend/routes/trips.js:157-160 | DELETE removes exactly the caller's row with that id. Other rows keep their multiplicity and their order. |
| Trips.DeleteTwice | backend/routes/trips.js:153-166 | After a delete, the same delete matches nothing (404) and leaves the table unchanged. |
| Trips.ForeignTripLooksMissing | backend/routes/trips.js:57-64 | Another user's trip gets 404, the same reply as a table without that trip. |
| Trips.UpdateErrors | backend/routes/trips.js:74-81 | A PUT is invalid iff it sends an empty title. |
| Trips.PatchRows | backend/routes/trips.js:138-143 | The table after a partial update: the caller's trip with that id is patched, and every other row is unchanged. |
| Trips.PatchKeepsKeys | backend/routes/trips.js:96-125 | The update writes no id, so the primary key and the id counter stay valid. |
| Trips.TitleOnlyUpdate | backend/routes/trips.js:101-132 | Sending only a title changes the title and updated_at, and nothing else. |
| Trips.PresentFields | backend/routes/trips.js:96-129 | Exactly one clause per sent field, so at most five. There are none iff no field was sent, which is the 400 "No fields to update" case. Every clause writes a value its column accepts. |
| Trips.PresentFieldsPatch | backend/routes/trips.js:96-132 | Applying the sent fields and `updated_at = NOW()` is exactly the partial update `Patched`. |
| Trips.PreparedBinds | backend/routes/trips.js:138-142 | Binding the SET list of a statement built with the intended numbering gives the writes of the sent fields, in order, followed by `updated_at = NOW()`. |
| Trips.CollectFields | backend/routes/trips.js:97-125 | Clause i is `column_i = $i` for the i-th sent field, in the fixed order title, description, start_date, end_date, destinations. Value i-1 is that field's value. |
| Trips.BuildUpdate | backend/routes/trips.js:127-140 | Corrected builder. Nothing is built iff no field was sent. Otherwise every placeholder is bound, `$k+1` is the trip id and `$k+2` is the caller. |
| Trips.BuildUpdateAsWritten | backend/routes/trips.js:131-140 | Builder as written. With k fields it pushes k+2 values but names `$k+2` (the caller's id) and `$k+3` (unbound) in the WHERE. |
| Trips.AsWrittenUpdateFails | backend/routes/trips.js:131-149 | As written, every PUT that sends a field produces a statement the database rejects. |
| Trips.BuiltUpdateRuns | backend/routes/trips.js:138-145 | The corrected statement runs and performs exactly `PatchRows`. It returns the caller's patched trip. |
| Trips.FirstMatchPatched | backend/routes/trips.js:138-145 | The first row matched after the update is the patched first row matched before it. |
| Trips.PreparedUpdateStep | backend/routes/trips.js:138-145 | A prepared update runs, returns the patched trip, and keeps ids unique and below the counter. |
| Trips.TripStore.Create | backend/routes/trips.js:26-46 | Invalid: 400 with the messages, and nothing changes. Valid: exactly one row `NewTrip` with the next id is appended, and 201 is returned with it. Primary key preserved. |
| Trips.TripStore.Update | backend/routes/trips.js:74-145 | Checked in order: 400 for an empty title, then 404 unless the caller owns the trip, then 400 if no field was sent. Otherwise the table becomes `PatchRows` and 200 is returned with the patched trip. Primary key preserved. |
| Trips.TripStore.Delete | backend/routes/trips.js:153-166 | The table becomes `Without`. Replies 404 when nothing matched, else 200 "Trip deleted successfully". Primary key preserved. |
| Destinations.InCategory | backend/routes/destinations.js:14-18 | With a non-empty category, exactly the rows of that category, each as often as it occurs in the catalog. Otherwise the whole catalog. |
| Destinations.Listing | backend/routes/destinations.js:7-24 | Row i is row offset+i of the category's rows sorted newest first, and there are min(limit, remaining) rows. So the result holds only catalog rows of that category, newest first, at most `limit` of them. |
| Destinations.ListingComplete | backend/routes/destinations.js:14-24 | A page as large as the catalog, from offset 0, lists every row of the category, each as often as it occurs. |
| Destinations.ConsecutivePages | backend/routes/destinations.js:20-21 | Consecutive pages of the model's listing neither skip nor repeat a row. |
| Destinations.ConsecutivePagesDistinct | backend/routes/destinations.js:20-21 | When no two catalog rows share a created_at, two pages fetched by separate queries neither skip nor repeat a row, whatever newest-first order each query returns. |
| Destinations.TiedPagesMayRepeat | backend/routes/destinations.js:20-21 | With two rows created at the same time, both orders are newest first, and a first page from one followed by a second page from the other repeats a row. |
| Destinations.BuildListQuery | backend/routes/destinations.js:9-21 | The placeholders are exactly $1..$n for the n values. The category takes a placeholder iff it is non-empty. LIMIT and OFFSET are bound to the given values, defaulting to 20 and 0. |
| Destinations.List | backend/routes/destinations.js:7-28 | 500 if limit or offset is negative. Otherwise 200 with `Listing`. |
| Destinations.LowerText | backend/routes/destinations.js:39-44 | The folded text has the same length and no upper-case ASCII letter. Each upper-case letter becomes its lower-case letter, and every other character is kept. |
| Destinations.LowerTextIdempotent | backend/routes/destinations.js:39-44 | Folding a folded text changes nothing. |
| Destinations.Search | backend/routes/destinations.js:32-46 | 400 "Search query is required" without a query. Otherwise a row is returned iff its name, description or location contains the query ignoring case, each as often as it occurs in the catalog. Results are newest first. |
| Destinations.SearchIgnoresCase | backend/routes/destinations.js:39-44 | A query and its lower-case form give the same reply. |
| Destinations.GetDestination | backend/routes/destinations.js:54-66 | 200 with a catalog row with that id iff one exists; otherwise 404 "Destination not found". |
| Auth.Issue | backend/routes/auth.js:46-50 | The token carries `{userId, email}` of the user and a 7-day lifetime. It is signed with JWT_SECRET when that is set and non-empty, and otherwise with "your-secret-key-change-in-production". |
| Auth.RegisterErrors | backend/routes/auth.js:11-20 | Registration is valid iff the email is an email, the password has at least 6 characters and the name is non-empty. Each failure has its own message. |
| Auth.LoginErrors | backend/routes/auth.js:68-76 | A login is valid iff the email is an email and the password is non-empty. |
| Auth.Login | backend/routes/auth.js:68-113 | 200 iff the input is valid, the email exists and the password matches its hash. The body has the public user and a token for them. Every other valid request gets 401 "Invalid email or password". Being a function of the table, login writes nothing. |
| Auth.UniformLoginFailure | backend/routes/auth.js:86-96 | A wrong password gets the same reply as an unknown email. |
| Auth.Me | backend/routes/auth.js:121-132 | 200 with the profile of the row with the token's user id iff one exists; otherwise 404 "User not found". |
| Auth.MeFindsRow | backend/routes/auth.js:123-132 | With unique ids, GET /me by a row's id returns that row's id, email, name and created_at. |
| Auth.UserStore.Register | backend/routes/auth.js:11-60 | Invalid: 400 with no lookup and no change. Email taken: 400 "Email already exists" and the table unchanged. Otherwise exactly one row is inserted, with the next id, and its stored password is the hash of the password with cost 10. Replies 201 with the public user and the token. Email keys and unique ids preserved. |
| Auth.LoginAfterRegister | backend/routes/auth.js:35-113 | Given a sound hash, logging in with the registered credentials succeeds and issues the same token as register. |
| AuthContext.Session.constructor | frontend/src/context/AuthContext.tsx:22-23 | A fresh page has no user, no token and no header. |
| AuthContext.Session.Mount | frontend/src/context/AuthContext.tsx:25-32 | A non-empty stored token becomes `token` and `Bearer <token>` the header, and the profile fetch starts. Otherwise nothing changes. |
| AuthContext.Session.FetchUserDone | frontend/src/context/AuthContext.tsx:34-43 | Success sets `user`. Failure clears the stored token and `token`, and leaves `user` and the header as they were. |
| AuthContext.Session.Adopt | frontend/src/context/AuthContext.tsx:45-61 | A failed request changes nothing. Success sets token, user, stored token and header to the new token and user. The session is then authenticated (`IsAuthenticated`, the `!!token` of line 78) iff the new token is non-empty. |
| AuthContext.Session.Login | frontend/src/context/AuthContext.tsx:45-52 | As `Adopt`, for POST /auth/login. |
| AuthContext.Session.Register | frontend/src/context/AuthContext.tsx:54-61 | As `Adopt`, for POST /auth/register. |
| AuthContext.Session.Logout | frontend/src/context/AuthContext.tsx:63-68 | Token, user, stored token and header are all cleared. The session is no longer authenticated (`IsAuthenticated`, the `!!token` of line 78). |
| AuthContext.AuthenticatedSendsToken | frontend/src/context/AuthContext.tsx:45-78 | In a reachable state, an authenticated session has its token persisted and sent as `Bearer <token>`. |
| AuthContext.ReloadAfterLogin | frontend/src/context/AuthContext.tsx:25-52 | After a login, a reloaded page restores the same token and header. |
| AuthContext.ReloadAfterLogout | frontend/src/context/AuthContext.tsx:25-68 | After a logout, a reloaded page restores nothing. |
| CreateTrip.Toggle | frontend/src/pages/CreateTrip.tsx:42-46 | An id is in the result iff exactly one of these holds: it was selected, or it is the toggled id. |
| CreateTrip.ToggleAppends | frontend/src/pages/CreateTrip.tsx:43-45 | An unselected id is appended at the end. |
| CreateTrip.ToggleRemoves | frontend/src/pages/CreateTrip.tsx:44 | A selected id is removed everywhere. The other ids keep their multiplicity and order. |
| CreateTrip.ToggleTwiceAbsent | frontend/src/pages/CreateTrip.tsx:43-45 | Toggling an unselected id twice restores the list. |
| CreateTrip.ToggleTwicePresent | frontend/src/pages/CreateTrip.tsx:43-45 | On a duplicate-free list, toggling a selected id twice restores the ids, with that id moved to the end. |
| CreateTrip.ToggleTwiceReorders | frontend/src/pages/CreateTrip.tsx:43-45 | Toggling 1 twice in [1, 2] gives [2, 1]. |
| CreateTrip.ToggleKeepsNoDup | frontend/src/pages/CreateTrip.tsx:43-45 | A selection without duplicates stays without duplicates. |
| CreateTrip.SubmittedSelectionStored | frontend/src/pages/CreateTrip.tsx:54-60 | An accepted form is stored with exactly the selected ids in order, and with its title. A blank description is stored as NULL. |
| CreateTrip.BlankTitleRefused | frontend/src/pages/CreateTrip.tsx:54-60 | For the body the form builds from a blank title, the server's 400 reply lists "Title is required". |

## Left out

- The `authenticateToken` middleware and `config/database` are not part of this model. The caller's user id is an input to every trip route and to `/me`, and token verification is not modelled.
- bcrypt and jsonwebtoken internals are left out. Hashing and comparison are function values, and `Auth.Sound` is the only property assumed of them. A token is the record of the claims, secret and lifetime handed to the signer; its signature and its `iat`/`exp` fields are not computed.
- Database failures such as lost connections and driver errors are left out. The 500 replies that are modelled are the ones caused by a statement the database rejects: a negative LIMIT or OFFSET, and the UPDATE built as written.
- Path ids and `limit`/`offset` are taken as already-parsed integers. `parseInt` producing NaN and non-numeric path ids are not modelled.
- ILIKE: `%` and `_` inside the search text are not treated as wildcards, and case folding covers ASCII letters only.
- Validators: `isISO8601` is restricted to the YYYY-MM-DD form, and `isEmail` to one `@` with a dotted domain and no spaces.
- JSON `null` is modelled only for the PUT description, which it clears. A null title, date or destinations field is treated as not sent.
- The `created_at`/`updated_at` column defaults and `NOW()` are a `now` parameter.
- Concurrency is left out. The check-then-insert in register and the check-then-update in PUT are races only under concurrent requests, and the model is sequential.
- Destination ids in a trip are not checked against the catalog; the source does not check them either.
- Frontend rendering, navigation, the loading and error flags and `fetchDestinations` are not modelled. Interleaved async completions are also left out: each handler, and each settled request, is one step.
- Seqs.SortDesc: SQL leaves the order of rows with equal created_at unspecified; the model fixes the one its insertion sort produces.
- Destinations.ConsecutivePages: holds for the model's one fixed order. PostgreSQL may order tied rows differently in two queries, so pages fetched separately are only guaranteed not to skip or repeat a row when created_at values are distinct (ConsecutivePagesDistinct); TiedPagesMayRepeat shows a repeat with ties.
- CreateTrip.BlankTitleRefused: the title input is `required`, so the browser does not send a blank title. If such a request were sent, the page would show its fallback message, because a 400 body of `errors` has no `error` field. This model does not include the browser's form validation or the error display.
- AuthContext.Session.IsAuthenticated: this is `!!token`, so a stored empty-string token does not count as authenticated, which is stricter than "token is non-null".
- CreateTrip.ToggleTwicePresent: toggling a selected id twice restores the list only up to order, because the id moves to the end (see `CreateTrip.ToggleTwiceReorders`).
- Trips.TripStore.Update: uses the corrected statement (see Findings). As written, the route replies 500 to every PUT that sends a field.
- Auth.Me: a ghost function, because it chooses the row by id from the email-keyed map.

## Findings

| source | as written | input that shows it | evidently intended | confidence | as-written member | corrected member |
|---|---|---|---|---|---|---|
| backend/routes/trips.js:131-140 | `paramCount` is also incremented for `updated_at = NOW()`, which pushes no value, so the WHERE clause uses `$k+2` and `$k+3` for k sent fields while only k+2 values exist | PUT /7 with body `{"title": "x"}` by user 3 on their own trip 7: values are `["x", 7, 3]` but the statement says `WHERE id = $3 AND user_id = $4`, so `$4` has no value and the database rejects the statement (500) | `WHERE id = $k+1 AND user_id = $k+2`, binding the trip id and the caller | high (not executed) | Trips.AsWrittenUpdateFails | Trips.BuildUpdate |
