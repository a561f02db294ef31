# User admin console: override layer, session store and directory client

A Dafny model of the bookkeeping inside a small React console for a demo user
directory (reqres.in). Three pieces are modelled:

- **The override merge layer.** `localStorage['updatedUsers']` maps a
  stringified user id to a locally edited `User`. The listing screen overlays
  it on each fetched page by position. The edit screen prefers it to the
  remote copy and writes to it on submit. Delete removes the entry and filters
  the row out of the list.
- **The session store.** A two-state machine over the `token` and `tokenDate`
  storage entries, with `login`, `logout` and a 24-hour expiry check.
- **The directory client's local logic.** This covers the simulated
  `updateUser` and `deleteUser`, the request paths and the
  `Authorization` header set by the request interceptor.

Layout, one module per file:

- `js.dfy` (`Js`): the JavaScript semantics the code relies on. `Num` is an
  integer or NaN. It covers `toString` of a number, `Number(s)`,
  `parseInt(s)`, `===` and truthiness, with round-trip lemmas between numbers
  and their decimal text.
- `types.dfy` (`Types`): `User`, `UpdateUserData` and the response records.
  `Fetched<T>` is how an awaited request ended: resolved or thrown.
- `storage.dfy` (`Storage`): the `LocalStorage` class. It has the string
  entries (`items: map<string, string>`) and the `updatedUsers` entry. That
  entry is either missing, parsed to a `map<string, User>`, or text that does
  not parse.
- `api.dfy` (`Api`): `UpdateUser`, `DeleteUser`, `UsersPath`, `UserPath`,
  the interceptor rule `Authorize` and the in-place `Intercept`.
- `userlist.dfy` (`UserList`): `MergeUsers`, `RemoveUser` and the
  `UserListScreen` class (`FetchUsers`, `HandleDelete`, `HandleEdit`,
  `SetPage`).
- `useredit.dfy` (`UserEdit`): `StoredEntry`, `SubmittedOverrides` and the
  `UserEditScreen` class (`FetchUser`, `HandleSubmit` and the field handlers).
- `authcontext.dfy` (`AuthContext`): `ShouldLogOut`, `LoginItems`,
  `LogoutItems` and the `Session` class (`Login`, `Logout`,
  `CheckTokenExpiration`).
- `overlay.dfy` (`Overlay`): how the edit screen's keys and the list's keys
  meet, through the `/users/:id/edit` route of `App.tsx`.
- `scenarios.dfy` (`Scenarios`): end-to-end scenarios, proved over one shared storage.

Network responses, the confirmation dialog's answer and the current time are
inputs. Every `navigate(...)` is recorded in a `navigation` field.

Three behaviours of the code that the model keeps:

- A malformed `updatedUsers` entry is not read as empty: `JSON.parse` throws
  into the screen's `catch`. The list, the edit load, the delete and the
  submit each then show their error message, and nothing is merged or
  written.
- A delete filters only the in-memory rows and clears the override. Fetching
  the page again shows the directory's copy of the row, because the delete is
  simulated (`Scenarios.EditThenDeleteScenario`, result `refetched`).
- The expiry check needs a truthy `token` and a `tokenDate` that parses to a
  number. An empty token is never expired, and neither is a missing or
  non-numeric issue time.

## Model

| member | source | states |
|---|---|---|
| `Js.StrictEquals` | src/components/UserList.tsx:62 | `a === b` on numbers holds exactly when they are the same number and not NaN |
| `Js.Truthy` | src/context/AuthContext.tsx:18 | a stored string or route parameter is truthy exactly when it is present and not the empty string |
| `Js.IntToDecimal` | src/context/AuthContext.tsx:37 | the decimal text of `Date.now()` is non-empty, starts with `-` exactly for a negative, and its digits read back as the magnitude |
| `Js.NatToDecimal` | src/components/UserList.tsx:38 | the decimal text of an id is non-empty, all digits, and starts with `0` only for 0 |
| `Js.DigitsValueOfDecimal` | src/context/AuthContext.tsx:37 | reading the decimal text of a natural number back gives that number |
| `Js.IntToDecimalInjective` | src/components/UserList.tsx:38 | two integers with the same decimal text are equal |
| `Js.NumToStringInjective` | src/components/UserList.tsx:38 | two ids give the same `toString` key exactly when they are the same number (NaN included), so each id has its own override key |
| `Js.NumberOfToString` | src/components/UserEdit.tsx:44 | `Number(n.toString())` is `n` for every integer and for NaN |
| `Js.NumToString` | src/components/UserList.tsx:38 | the text of a number is non-empty, starts with `-` exactly for a negative integer, and is `NaN` exactly for NaN |
| `Js.StringToNumber` | src/components/UserEdit.tsx:44 | `Number("")` is 0, a string of digits is its decimal value, and text starting with anything but a digit or a sign is NaN |
| `Js.ParseInt` | src/context/AuthContext.tsx:23 | `parseInt("")` is NaN, text starting with a digit is a non-negative number, and text starting with anything but a digit or a sign is NaN |
| `Js.NumberOfEveryToString` | src/components/UserEdit.tsx:44 | `Number(n.toString())` is `n` for all numbers at once |
| `Js.ParseIntOfDecimal` | src/context/AuthContext.tsx:23 | `parseInt` reads back the stored decimal issue time, ignoring trailing text that does not start with a digit |
| `Storage.ParseStoredUsers` | src/components/UserList.tsx:34 | parsing the `updatedUsers` entry (or `'{}'` when it is missing) fails exactly for a malformed entry; a missing entry reads as the empty map and a stored one as its map |
| `Storage.LocalStorage.GetItem` | src/context/AuthContext.tsx:17 | `getItem` finds a value exactly for a stored key, and it is the stored value |
| `Storage.LocalStorage.constructor` | src/components/UserList.tsx:34 | a store starts with the given string entries and `updatedUsers` entry, and the override map is never among the string entries |
| `Storage.LocalStorage.SetItem` | src/context/AuthContext.tsx:36-37 | `setItem` on any key but `updatedUsers` replaces one entry and leaves every other entry and `updatedUsers` unchanged |
| `Storage.LocalStorage.RemoveItem` | src/context/AuthContext.tsx:43-44 | `removeItem` on any key but `updatedUsers` removes one entry and leaves every other entry and `updatedUsers` unchanged |
| `Storage.LocalStorage.WriteUpdatedUsers` | src/components/UserList.tsx:60 | writing the override map makes it the stored value; the string entries are unchanged |
| `Api.UpdateUser` | src/services/api.ts:34-41 | the simulated update keeps the given id, takes all three form fields from the input, and derives the avatar URI from the id |
| `Api.AvatarIdentifiesUser` | src/services/api.ts:39 | two simulated updates have the same avatar exactly when they have the same id |
| `Api.DeleteUser` | src/services/api.ts:43-46 | the simulated delete always succeeds |
| `Api.UsersPath` | src/services/api.ts:24-25 | the listing path starts with `/users?page=`, and the page number read back from it is the page requested, or 1 when none is given |
| `Api.UserPath` | src/services/api.ts:29-30 | the single-user path starts with `/users/`, and the id read back from it is the id requested, NaN included |
| `Api.Authorize` | src/services/api.ts:12-16 | a truthy token sets `Authorization` to `Bearer <token>`; every other header is kept and no other header is added; a missing or empty token leaves the headers unchanged |
| `Api.RequestConfig.constructor` | src/services/api.ts:11 | the request the interceptor receives holds the given URL and headers |
| `Api.Intercept` | src/services/api.ts:11-17 | the interceptor changes the request's headers in place to the rule applied to the stored token; the URL is unchanged |
| `UserList.OverrideKey` | src/components/UserList.tsx:38 | the key a row is looked up by reads back as the row's id |
| `UserList.EditRoute` | src/components/UserList.tsx:70 | the Edit route is `/users/`, then exactly the list's override key `id.toString()` of every row with that id (which reads back as the id), then `/edit` |
| `UserList.MergeUsers` | src/components/UserList.tsx:37-40 | the merged page has as many rows as the fetched page, in the same positions; row i is the override stored under `data[i].id.toString()` if there is one, else `data[i]` |
| `UserList.MergeWithoutOverrides` | src/components/UserList.tsx:34 | with no stored overrides, which is how a missing entry reads, the merge is the identity |
| `UserList.MergeIdempotent` | src/components/UserList.tsx:37-40 | when every override is stored under its own id's key, merging the merged page again changes nothing |
| `UserList.MergeAfterClear` | src/components/UserList.tsx:59 | after one key is cleared, the rows with that key show their fetched copy and every other row is as before |
| `UserList.RemoveUser` | src/components/UserList.tsx:62 | the filtered list is never longer than the list it filters |
| `UserList.RemoveUserMembers` | src/components/UserList.tsx:62 | a row is kept exactly when it was in the list and its id is not `===` the deleted id |
| `UserList.RemoveUserAppend` | src/components/UserList.tsx:62 | the filter distributes over concatenation, so kept rows stay in their relative order |
| `UserList.RemoveAbsentUser` | src/components/UserList.tsx:62 | deleting an id that no row carries leaves the rows unchanged |
| `UserList.RemoveNaNKeepsAll` | src/components/UserList.tsx:62 | deleting a NaN id removes no row, because NaN is `!==` every id |
| `UserList.UserListScreen.constructor` | src/components/UserList.tsx:23-26 | the screen starts with no rows, on page 1 of 1, with no error |
| `UserList.UserListScreen.FetchUsers` | src/components/UserList.tsx:30-47 | requests the current page's path. If the read resolves and storage parses, the rows become the merge and `totalPages` the response's, and the error is kept. Otherwise rows and page count are unchanged and the error is "Failed to fetch users" |
| `UserList.UserListScreen.SetPage` | src/components/UserList.tsx:147 | changing page sets only the page |
| `UserList.UserListScreen.HandleDelete` | src/components/UserList.tsx:53-67 | declining changes nothing. On a parse failure only the error changes, to "Failed to delete user". Otherwise only the key `id.toString()` leaves the stored map, rows with that id are filtered out, and the string entries are unchanged |
| `UserList.UserListScreen.HandleEdit` | src/components/UserList.tsx:69-71 | navigates to `/users/<id>/edit` and changes nothing else |
| `UserEdit.RouteNumber` | src/components/UserEdit.tsx:44 | an absent route parameter is NaN, and a parameter holding the printed form of a number reads as that number |
| `Types.FormOf` | src/components/UserEdit.tsx:47-51 | the form is filled with the user's first name, last name and email |
| `UserEdit.StoredEntry` | src/components/UserEdit.tsx:31 | an override is found exactly when the route parameter is truthy and is a key of the stored map, and it is the entry under that raw parameter |
| `UserEdit.LoadAfterSubmit` | src/components/UserEdit.tsx:72-76 | after a submit, the same route finds an override with the submitted fields, the route's numeric id and the derived avatar |
| `UserEdit.SubmittedOverrides` | src/components/UserEdit.tsx:72-75 | for a truthy route parameter, the override under it carries the form's fields and the route's numeric id; every other override is kept; the keys grow by that parameter only, and by nothing when it is falsy |
| `UserEdit.UserEditScreen.constructor` | src/components/UserEdit.tsx:16-25 | the screen starts with no user, an empty form and no messages |
| `UserEdit.UserEditScreen.Loading` | src/components/UserEdit.tsx:84-90 | the screen shows only the loading text exactly while it holds no user |
| `UserEdit.UserEditScreen.FetchUser` | src/components/UserEdit.tsx:27-56 | a fetch never returns a loaded screen to loading. a stored override under the route parameter becomes the user and fills the form, and no request is made. Otherwise the user path is requested and the response's record, when present, becomes the user and fills the form. A parse failure or a failed read sets "Failed to fetch user data" and leaves the user unchanged |
| `UserEdit.UserEditScreen.HandleSubmit` | src/components/UserEdit.tsx:62-82 | success always ends as "User updated successfully". If storage parses, the error is cleared, the simulated update of the form is stored under the truthy route parameter, and the return to `/users` is scheduled. On a parse failure the error is "Failed to update user" and nothing is written. User and form are unchanged |
| `UserEdit.UserEditScreen.SetFirstName` | src/components/UserEdit.tsx:114-115 | editing the first name changes only that field of the form |
| `UserEdit.UserEditScreen.SetLastName` | src/components/UserEdit.tsx:124-125 | editing the last name changes only that field of the form |
| `UserEdit.UserEditScreen.SetEmail` | src/components/UserEdit.tsx:135-136 | editing the email changes only that field of the form |
| `UserEdit.UserEditScreen.Cancel` | src/components/UserEdit.tsx:152 | Cancel navigates to `/users` and changes nothing else |
| `AuthContext.LoginItems` | src/context/AuthContext.tsx:36-37 | after login the token is stored, the issue time is text that `parseInt` reads back as `now`, and every other entry is kept |
| `AuthContext.LogoutItems` | src/context/AuthContext.tsx:43-44 | after logout neither `token` nor `tokenDate` is stored, every other entry is kept, and no entry is added |
| `AuthContext.ShouldLogOut` | src/context/AuthContext.tsx:17-23 | the check logs out exactly when a non-empty token is stored, the issue time is stored and parses to a number, and more than 24 hours have passed since it |
| `AuthContext.ExpiryAfterLogin` | src/context/AuthContext.tsx:16-27 | after `login(token)` at time t, the check at `now` logs out exactly when the token is non-empty and `now - t > 86400000` |
| `AuthContext.ExpiryBoundary` | src/context/AuthContext.tsx:21-24 | a session checked when it opens, or exactly 24 hours later, survives; one millisecond later it is logged out |
| `AuthContext.TrailingTextInIssueTime` | src/context/AuthContext.tsx:23 | an issue time followed by non-digit text is read as its leading number |
| `AuthContext.NonNumericIssueTime` | src/context/AuthContext.tsx:20-23 | a missing issue time, or one that `parseInt` reads as NaN, never expires, because the comparison with NaN is false |
| `AuthContext.LogoutIdempotent` | src/context/AuthContext.tsx:42-45 | logging out twice leaves the same entries as once, and a logged-out store never expires |
| `AuthContext.Session.constructor` | src/context/AuthContext.tsx:12-33 | the flag starts false whatever storage holds; the mount-time check logs out an expired session and otherwise changes nothing |
| `AuthContext.Session.Login` | src/context/AuthContext.tsx:35-40 | stores the token and the decimal `now`, sets the flag, and navigates to `/users` |
| `AuthContext.Session.Logout` | src/context/AuthContext.tsx:42-47 | removes `token` and `tokenDate` from any state, clears the flag, and navigates to `/login` |
| `AuthContext.Session.CheckTokenExpiration` | src/context/AuthContext.tsx:16-27 | logs out exactly when the stored session has expired, and otherwise changes nothing |
| `Overlay.EditRouteParam` | src/App.tsx:28 | the route `/users/:id/edit` matches the canonical lower-case path without a trailing slash exactly when it is `/users/` + a non-empty segment without `/` + `/edit`, and the parameter is that segment |
| `Overlay.EditButtonParam` | src/components/UserList.tsx:70 | following a row's Edit button gives the edit screen the parameter `id.toString()`, the list's key for that row |
| `Overlay.SubmitShowsInList` | src/components/UserEdit.tsx:74 | from the parameter the router extracts from the Edit button's route, the edit screen reads the row's own id, and the submitted update replaces that row in every later merge |
| `Overlay.PaddedRouteMissedByList` | src/components/UserEdit.tsx:31 | the hand-typed path `/users/07/edit` matches the edit route with parameter `07` and reads as id 7, but its update is stored under `07`, which is the list's key of no user, so the row keeps its directory copy |
| `Overlay.SubmitKeepsWellKeyed` | src/components/UserEdit.tsx:74 | a submit from the parameter the router extracts from the Edit button's route keeps every override under its own id's key |
| `Overlay.ClearKeepsWellKeyed` | src/components/UserList.tsx:59 | a delete keeps every override under its own id's key |
| `Overlay.LoadAfterDelete` | src/components/UserList.tsx:59 | after a row is deleted, the parameter the router extracts from its Edit button's route finds no override |
| `Scenarios.LoginTokenAuthorizes` | src/services/api.ts:12-16 | after login with a non-empty token, requests carry `Bearer <token>`; after logout they carry no added header |
| `Scenarios.MergeScenario` | src/components/UserList.tsx:37-40 | a page [A, B, C] with an override for B only shows [A, B', C] |
| `Scenarios.SessionScenario` | src/context/AuthContext.tsx:35-38 | after login at t and a check at `now`, the session is authenticated exactly when the token is empty or at most 24 hours have passed. Requests carry the bearer header until the session is logged out |
| `Scenarios.EditThenDeleteScenario` | src/components/UserEdit.tsx:72-76 | after editing user 7, reopening the edit screen skips the read and shows the fields with avatar `.../7-image.jpg`. Deleting 7 empties the list and clears its override. Fetching the page again shows the directory's row |

## Left out

- The network calls are not modelled: the login POST and the page and user GETs. Their outcomes are method inputs (`Fetched<T>`), and the base URL is not modelled: paths are stated relative to it.
- React rendering and the MUI components are not modelled. Of the routing in `App.tsx`, only the `/users/:id/edit` match is modelled (see the `Overlay.EditRouteParam` line below). A `navigate(...)` call is recorded in a `navigation` field. The `Login` and `PrivateRoute` components are not part of this model.
- Effects that re-run a fetch when the page or route changes are not modelled. The caller invokes `FetchUsers` or `FetchUser` explicitly. The list's Logout button is `AuthContext.Session.Logout` and is not wired to the screen.
- JSON serialisation of `updatedUsers` is not modelled. The entry is a `map<string, User>`, and a parse failure is the `Malformed` case. Parsed values that are not objects are not modelled. Nor are keys that hit the object's prototype (such as `constructor`). Nor is `JSON.stringify` turning a NaN id into `null`.
- `Date.now`, `setInterval` and `setTimeout` are not modelled. Time is a parameter, and the check is called directly. The delayed return to `/users` after a submit is recorded at once.
- `window.confirm` is not modelled. Its answer is the boolean `confirmed`.
- Async interleavings are not modelled: a pending read racing a storage write, cross-tab sharing of storage, and the brief state of a submit with both messages cleared (only the final state is stated).
- `useAuth` outside its provider is not modelled.
- Js.StringToNumber: JavaScript's `Number(s)` also trims whitespace and accepts fractions, exponents, hex and `Infinity`. The model gives NaN for all of these. Only the empty string, and digits with an optional sign, are numbers here.
- Js.ParseInt: leading whitespace and the `0x` hexadecimal prefix that `parseInt` accepts are not modelled. Text with leading whitespace reads as NaN here; text with a `0x` prefix reads as its leading `0`.
- Overlay.EditRouteParam: the router matches paths case-insensitively and accepts a trailing slash, so `/USERS/7/EDIT` and `/users/7/edit/` also open the edit screen with parameter `7`; the model matches only the canonical lower-case path without a trailing slash, and does not percent-decode the parameter.
- Js.Num: numbers are unbounded integers or NaN. Fractional values, infinities, `-0` and the precision loss of doubles above 2^53 are not modelled.
