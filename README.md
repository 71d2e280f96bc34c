# User and role admin client, modelled in Dafny

This project models the logic of a React admin client for users and roles. The client talks to a paginated REST server. The model covers five source files:

- **The client store** (`client/src/store.ts`). This is the zustand store. It holds the loaded `users` and `roles`, with the `isLoadingUsers` and `isLoadingRoles` flags. Its actions are `loadUsers`, `loadRoles`, `addUser` and `removeUser`. It is modelled as the class `Store.UserStore`.
  - Each load is split at its `await`. `Begin…` covers the cache-first test, raising the flag and building the request. `Settle…` covers committing or swallowing the response and lowering the flag in `finally`. `Load…` runs both.
  - The HTTP call becomes two things. The request (path and query parameters) is an out-parameter. How it settles is a `Fetch` parameter: `Success(data)` or `Failure(detail)`.
- **The role-edit checks** (`RoleValidation`).
  - The `RolesTable` component's `hasDuplicateRole` leaves the role being edited out of the search.
  - `App`'s inline `duplicateRoleName` does not. So in `App` an unchanged name always counts as a duplicate, and Save stays disabled when only the description was edited (`KeptNameSaveDiffers`).
  - Both dialogs share the Save-disabled rule.
- **The `UsersTable` component** (`UsersTable`). It covers `getRoleLabel`, which also appears verbatim in `App.tsx`. It also covers the table body as a list of rows: spinner, one row per user, pagination row. It states which user a delete confirmation targets.
- **The `RolesTable` component** (`RolesTable`).
  - Its edit dialog is a class over its three state cells: `handleEditClick`, the field changes, the Save call and the Save-disabled rule.
  - Its table body is a view model: role rows, the "No roles found" row, the pagination row, and the Default badge and disabled delete for default roles.
- **The `App` component** (`App`).
  - The load arguments for search-driven loads and for Previous/Next, and how they become the store's query.
  - The table-loading and pagination conditions.
  - Its own role-edit and error-banner state (`onEditRole`, `handleUpdateRole`, dismissal).
  - How its handlers call the store.
- **The error banner text** `getErrorMessage` (`ErrorUtil`). It comes with a parser that reads a banner back, and round-trip lemmas in both directions.

The model follows the code as written, except the `RolesTable` description placeholder (see Findings), in particular where the store does less than a client of this kind often does:

- `client/src/store.ts` has no per-request generation tokens, no cancellation of superseded loads, and does not re-throw errors.
  - Settling a load always commits on success, whichever load was issued last.
  - Every failure is swallowed (logged only).
  - So the `catch` blocks around the loads in `App.tsx` (lines 33-35 and 47-49) can never run. `App.AppState.RunLoadUsers` states this by leaving the banner outside its frame.
- `App.tsx` calls `loadRoles` with `{search, page, reload}`. The store's `loadRoles` takes no arguments and always requests `/roles/` with no query. So the role search and the role Previous/Next buttons do not change the request (`App.AppState.RunLoadRoles`).
- `App.tsx` reads `users.data`, `users.prev`, `users.next` and `users.pages`, calls `updateRole`, and reads the `isDeletingUser` and `isUpdatingRole` flags. The store declares plain arrays and none of those members.
  - The paging fields are the `App.PageInfo` input.
  - `updateRole`'s outcome is the `App.UpdateOutcome` input.
  - The two flags are plain inputs.
  - Against `client/src/store.ts` as written, `roles.data` is undefined, so `roles.data.some` at `App.tsx` line 82 throws on the first render. And `updateRole` is undefined, so every save in App's dialog fails into the 'Updating Role' banner (the `UpdateFailed` outcome). The model takes the paged shape and the outcome as given and does not model these crashes.

Lower-casing is the ASCII mapping (`JsString.ToLower`). Trimming uses the full set of ECMAScript white-space and line-terminator code points (`JsString.IsWhiteSpace`).

## Model

| member | source | states |
|---|---|---|
| `JsString.Trim` | client/src/components/RolesTable.tsx:142 | `trim` returns an infix of the input that neither starts nor ends with white space, with only white space cut off on either side |
| `JsString.TrimEmptyIffBlank` | client/src/App.tsx:340 | `!name.trim()` holds exactly when the name is made of white space only |
| `JsString.ToLower` | client/src/components/RolesTable.tsx:35 | lower-casing keeps the length and maps each character by the ASCII lower-case mapping |
| `ErrorUtil.GetErrorMessage` | client/src/util/errorUtil.ts:2-3 | the output is "There was a problem ", the action, ": ", the detail, ". ", then "Please try again." exactly when `tryAgain` is true (its default); length 20 + \|action\| + 2 + \|detail\| + 2 + 17 when trying again, without the 17 otherwise |
| `ErrorUtil.ParseGetErrorMessage` | client/src/util/errorUtil.ts:3 | every banner reads back to the action, detail and `tryAgain` flag it was built from |
| `ErrorUtil.GetErrorMessageOfParse` | client/src/util/errorUtil.ts:3 | whatever reads back as a banner is exactly the banner of what it reads back to |
| `ErrorUtil.GetErrorMessageInjective` | client/src/util/errorUtil.ts:3 | two banners whose actions have one length are equal only if action, detail and flag are all equal |
| `Store.Lookup` | client/src/store.ts:34-41 | `URLSearchParams.get` is absent iff no pair has the key, and otherwise is the value of the first pair with that key |
| `Store.ShouldFetch` | client/src/store.ts:29 | the load is answered from the cache (no fetch) exactly when `reload` is not set and some users are held |
| `Store.UsersQuery` | client/src/store.ts:34-41 | `loadUsers` sends `search` iff the search string is non-empty and `page` iff the page string is non-empty, each with its value; no other key; `search` comes before `page` |
| `Store.Committed` | client/src/store.ts:42-51 | a successful load replaces the list by the response data wholesale; a failed one leaves the held list |
| `Store.WithoutId` | client/src/store.ts:60-63 | the filtered list holds no user with the id, and holds every other user exactly as often as before |
| `Store.WithoutIdAppend` | client/src/store.ts:62 | filtering distributes over concatenation, so the kept users keep their order |
| `Store.WithoutIdAbsent` | client/src/store.ts:62 | a list without the id is returned unchanged |
| `Store.WithoutIdIdempotent` | client/src/store.ts:60-63 | removing a user twice equals removing it once |
| `Store.RemoveUndoesAdd` | client/src/store.ts:55-63 | removing a just-added user whose id was not held gives back the list from before the add |
| `Store.UserStore.constructor` | client/src/store.ts:22-26 | the store starts with both lists empty and neither flag raised |
| `Store.UserStore.BeginLoadUsers` | client/src/store.ts:27-44 | a request is issued iff `reload` is set or no users are held; without one nothing changes, the loading flag included; with one the flag is raised and the request is `GET /users` with `UsersQuery(search, page)` |
| `Store.UserStore.SettleLoadUsers` | client/src/store.ts:46-53 | on settling, users become `Committed(old users, response)` and the flag is lowered on every outcome; roles untouched |
| `Store.UserStore.LoadUsers` | client/src/store.ts:27-54 | the whole call: a cache hit changes nothing; a fetch leaves the committed list and the flag lowered |
| `Store.UserStore.AddUser` | client/src/store.ts:55-58 | the user is appended after all existing users |
| `Store.UserStore.RemoveUser` | client/src/store.ts:60-63 | users become `WithoutId(old users, user.id)`; nothing else changes |
| `Store.UserStore.BeginLoadRoles` | client/src/store.ts:64-67 | `loadRoles` always issues `GET /roles/` with no query and raises its flag |
| `Store.UserStore.SettleLoadRoles` | client/src/store.ts:68-75 | roles become `Committed(old roles, response)` and the flag is lowered on every outcome |
| `Store.UserStore.LoadRoles` | client/src/store.ts:64-77 | the whole call, as the two steps together |
| `RoleValidation.DescriptionOrEmpty` | client/src/components/RolesTable.tsx:40 | the description field is seeded with the description when there is one and with '' otherwise; it is non-empty iff the description is truthy (App.tsx:87 is the same expression) |
| `RoleValidation.IsEditedRole` | client/src/components/RolesTable.tsx:35 | `role.id !== editingRole?.id` is false exactly when a role is under edit and has this role's id; with none under edit no role is it |
| `RoleValidation.HasDuplicateRole` | client/src/components/RolesTable.tsx:34-35 | true iff some role whose id differs from the edited role's id has the typed name, ignoring case (every role counts when none is edited) |
| `RoleValidation.DuplicateRoleName` | client/src/App.tsx:81-82 | true iff some loaded role, the edited one included, has the typed name, ignoring case |
| `RoleValidation.SaveDisabled` | client/src/components/RolesTable.tsx:142 | Save is disabled iff the name is blank, an update is in progress, or the duplicate check fired |
| `RoleValidation.KeptNameIsNoDuplicate` | client/src/components/RolesTable.tsx:35 | keeping the edited role's name is not flagged unless a role with another id has that name |
| `RoleValidation.KeptNameIsDuplicateInApp` | client/src/App.tsx:82 | in App the name of any loaded role always counts as a duplicate |
| `RoleValidation.DuplicateChecksDiffer` | client/src/App.tsx:81-82 | App's check is the component's check plus the roles sharing the edited role's id |
| `RoleValidation.KeptNameSaveDiffers` | client/src/App.tsx:340 | for a role with a unique non-blank name edited without renaming, Save is enabled in the component and disabled in App |
| `UsersTable.FindRole` | client/src/components/UsersTable.tsx:27 | `find` is absent iff no role has the id, and otherwise is the first role with it |
| `UsersTable.RoleLabel` | client/src/components/UsersTable.tsx:26-28 | the label is the first matching role's name, or 'Unknown' when nothing matches or that name is empty (the same expression as client/src/App.tsx:12-14); never empty |
| `UsersTable.UserRows` | client/src/components/UsersTable.tsx:62-67 | one row per user, in input order, keyed by the user's id, showing its role label |
| `UsersTable.Body` | client/src/components/UsersTable.tsx:53-134 | while loading only the spinner row; otherwise the user rows, then the pagination row iff there are pages, with Previous disabled iff no previous page and Next disabled iff no next page |
| `UsersTable.ConfirmDeleteTarget` | client/src/components/UsersTable.tsx:99 | a row's delete confirmation hands on a user exactly for a user row, and it is that row's user |
| `UsersTable.ConfirmDeleteTargetsRowUser` | client/src/components/UsersTable.tsx:99 | confirming deletion in the i-th row hands the i-th user to `onDeleteUser` |
| `RolesTable.DescriptionCellAsWritten` | client/src/components/RolesTable.tsx:77 | a non-empty description is shown as is; otherwise the three characters the line holds |
| `RolesTable.MisencodedPlaceholderShows` | client/src/components/RolesTable.tsx:77 | a role whose description is absent or empty shows three characters that are not an em dash |
| `RolesTable.DescriptionCell` | client/src/App.tsx:275 | a non-empty description is shown as is; a missing or empty one as a single em dash |
| `RolesTable.RoleRows` | client/src/components/RolesTable.tsx:64-96 | one row per role in order, keyed by id; the Default badge and the disabled "Delete role" are shown exactly for default roles; the description cell is the corrected `DescriptionCell` (one em dash), not the line-77 placeholder (see Findings) |
| `RolesTable.Body` | client/src/components/RolesTable.tsx:54-186 | while loading only the spinner; otherwise exactly the role rows (with the corrected placeholder, see Findings), then "No roles found" iff there are no roles, then the pagination row iff there are pages, with each button disabled iff its page is missing |
| `RolesTable.EditDialog.constructor` | client/src/components/RolesTable.tsx:30-32 | the dialog starts with no role and empty fields |
| `RolesTable.EditDialog.HandleEditClick` | client/src/components/RolesTable.tsx:37-41 | the edited role becomes the role, the name field its name, the description field its description or '' |
| `RolesTable.EditDialog.ChangeName` | client/src/components/RolesTable.tsx:112 | typing sets the name field only |
| `RolesTable.EditDialog.ChangeDescription` | client/src/components/RolesTable.tsx:125 | typing sets the description field only |
| `RolesTable.EditDialog.SaveDisabledFor` | client/src/components/RolesTable.tsx:142 | Save is disabled iff the name is blank, an update runs, or a role other than the edited one has the name, ignoring case |
| `RolesTable.EditDialog.SaveCall` | client/src/components/RolesTable.tsx:141 | Save calls `onEditRole` with the edited role's id and the current name and description fields |
| `App.SettledSearch` | client/src/App.tsx:30 | an empty settled term is passed as undefined, any other as itself |
| `App.SearchLoad` | client/src/App.tsx:29-32 | search-driven loads always pass `reload: true` and no page |
| `App.PreviousLoad` | client/src/App.tsx:200-204 | Previous passes the previous token as the page, the settled term and `reload: true` |
| `App.NextLoad` | client/src/App.tsx:213-217 | Next passes the next token as the page, the settled term and `reload: true` |
| `App.SearchLoadQuery` | client/src/App.tsx:29-32 | a search-driven load always fetches, with query `search=<term>` or the empty query for an empty term |
| `App.PreviousLoadQuery` | client/src/App.tsx:200-204 | a Previous load always fetches, with the settled term (if any) followed by `page=<prev>` |
| `App.NextLoadQuery` | client/src/App.tsx:213-217 | a Next load always fetches, with the settled term (if any) followed by `page=<next>` |
| `App.NextPageOfSearch` | client/src/App.tsx:213-217 | searching "ann" and clicking Next with next page "2" queries `search=ann&page=2` |
| `App.IsTableLoading` | client/src/App.tsx:24 | the user table shows its rows only when neither roles, users nor a deletion are loading |
| `App.HasSeveralPages` | client/src/App.tsx:192 | `!!pages && pages > 1` holds iff a page count is present and above 1 |
| `App.UsersBody` | client/src/App.tsx:134-225 | while roles, users or a deletion load only the spinner shows; otherwise exactly the user rows in order, then the pagination row iff there is more than one page, with Previous disabled iff no previous page and Next disabled iff no next page |
| `App.RolesBody` | client/src/App.tsx:251-393 | the role table spins on the role load alone; otherwise exactly the role rows in order, the empty row iff there are no roles, and the pagination row iff there is more than one page, with Previous disabled iff no previous page and Next disabled iff no next page |
| `App.AppState.constructor` | client/src/App.tsx:22-79 | no role under edit and empty fields (lines 77-79), and an empty banner (line 22) |
| `App.AppState.OnEditRole` | client/src/App.tsx:84-88 | the edited role becomes the role, the name its name, the description its description or ''; the banner is untouched |
| `App.AppState.ChangeRoleName` | client/src/App.tsx:310 | typing sets the name field only |
| `App.AppState.ChangeRoleDescription` | client/src/App.tsx:323 | typing sets the description field only |
| `App.AppState.SaveDisabledFor` | client/src/App.tsx:340 | Save is disabled iff the name is blank, an update runs, or any loaded role has the name, ignoring case |
| `App.AppState.HandleUpdateRole` | client/src/App.tsx:90-100 | without an edited role nothing happens; otherwise the update gets the role's id and the fields; success clears the edited role; failure keeps it and sets the banner to the 'Updating Role' message |
| `App.AppState.DismissError` | client/src/App.tsx:410 | closing the banner empties it and changes nothing else |
| `App.AppState.RunLoadUsers` | client/src/App.tsx:26-38 | a settled term always fetches `GET /users` with only the term as query; the list is committed, the flag lowered; the banner cannot be touched |
| `App.AppState.PreviousUsersPage` | client/src/App.tsx:200-204 | Previous fetches the previous page under the settled term and commits it |
| `App.AppState.NextUsersPage` | client/src/App.tsx:213-217 | Next fetches the next page under the settled term and commits it |
| `App.AppState.RunLoadRoles` | client/src/App.tsx:40-53 | whatever search, page or reload App passes, the store requests `/roles/` with no query |
| `App.AppState.OnDeleteUser` | client/src/App.tsx:66-75 | deleting a user removes every user with its id from the store and cannot set the banner |

## Left out

- The HTTP layer (the `api` module) is not part of this model. The request each load would send is an out-parameter, and how it settles is a parameter.
- Concurrency is not modelled: the async interleaving of overlapping loads. `client/src/store.ts` has no request supersession or stale-response tokens to model. `Begin…` and `Settle…` can be called in any order, and the model promises only what each step does on its own.
- Debouncing of the search inputs (`use-debounce`, 300 ms) depends on timers. The model starts from the settled term.
- Date formatting with `Intl.DateTimeFormat` is locale and library behaviour. Timestamps stay strings, and rows carry the record itself.
- JSX and Radix layout, styling and dialogs are not modelled. Neither are `ErrorDisplay.tsx`, `SearchBar.tsx`, nor the avatar, name and role cells beyond the role label.
- `console.log` and `console.error` are output only.
- JsString.ToLower: models `toLowerCase` for ASCII letters only. Full Unicode case mapping is a large library table, and the duplicate checks are stated over this mapping.
- The `onEditUser` handler and the "Add user" and "Add role" buttons do nothing in the source.
- The "Delete role" menu item has no handler in either dialog. Only its disabled state is modelled.

## Findings

| source | as written | input that shows it | evidently intended | confidence | as-written member | corrected member |
|---|---|---|---|---|---|---|
| client/src/components/RolesTable.tsx:77 | a missing description falls back to the three characters U+00E2 U+20AC U+201D (the UTF-8 bytes of an em dash read as Windows-1252) | a role whose `description` is absent or empty | a single em dash, as client/src/App.tsx:275 shows | medium, not executed | `RolesTable.DescriptionCellAsWritten` (exhibited by `RolesTable.MisencodedPlaceholderShows`) | `RolesTable.DescriptionCell`, used by `RolesTable.RoleRows` |
