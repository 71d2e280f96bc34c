/** The `App` component of client/src/App.tsx: the arguments it hands to the
    store's loads, its loading and pagination conditions, and its own
    role-edit and error-banner state. App.tsx reads `users` and `roles` as
    paged objects and uses `updateRole`, `isDeletingUser` and `isUpdatingRole`,
    none of which client/src/store.ts provides; they are inputs here. */
module App {
  import opened Models
  import opened JsString
  import opened ErrorUtil
  import opened Store
  import opened RoleValidation
  import UsersTable
  import RolesTable

  /** The paging fields of a paged response as App reads them. */
  datatype PageInfo = PageInfo(prev: Option<string>, next: Option<string>, pages: Option<int>)

  /** The object App passes to `loadUsers` or `loadRoles`. */
  datatype LoadArgs = LoadArgs(search: Option<string>, page: Option<string>, reload: bool)

  /** How `updateRole` settles. */
  datatype UpdateOutcome = Updated | UpdateFailed(error: string)

  /** `debouncedSearch || undefined`. */
  function SettledSearch(debounced: string): (r: Option<string>)
    ensures r.None? <==> debounced == ""
    ensures r.Some? ==> r.value == debounced
    ensures Truthy(r) <==> debounced != ""
  {
    if debounced != "" then Some(debounced) else None
  }

  /** The load a settled search term triggers: always a forced reload of the
      first page. */
  function SearchLoad(debounced: string): (a: LoadArgs)
    ensures a.reload && a.page.None? && a.search == SettledSearch(debounced)
  {
    LoadArgs(SettledSearch(debounced), None, true)
  }

  /** The load behind Previous, which is enabled only with a previous page. */
  function PreviousLoad(debounced: string, info: PageInfo): (a: LoadArgs)
    requires Truthy(info.prev)
    ensures a.reload && a.page == info.prev && a.search == SettledSearch(debounced)
  {
    LoadArgs(SettledSearch(debounced), info.prev, true)
  }

  /** The load behind Next, which is enabled only with a next page. */
  function NextLoad(debounced: string, info: PageInfo): (a: LoadArgs)
    requires Truthy(info.next)
    ensures a.reload && a.page == info.next && a.search == SettledSearch(debounced)
  {
    LoadArgs(SettledSearch(debounced), info.next, true)
  }

  /** The query of a search-driven user load: the term when it is not empty,
      and no page. Being a forced reload, it is never answered from the cache. */
  lemma SearchLoadQuery(debounced: string, users: seq<User>)
    ensures ShouldFetch(SearchLoad(debounced).reload, users)
    ensures UsersQuery(SearchLoad(debounced).search, SearchLoad(debounced).page)
            == if debounced == "" then [] else [Param("search", debounced)]
  {
  }

  /** The query of Previous: the settled term when it is not empty, then
      the previous page's token, and a forced reload. */
  lemma PreviousLoadQuery(debounced: string, info: PageInfo, users: seq<User>)
    requires Truthy(info.prev)
    ensures ShouldFetch(PreviousLoad(debounced, info).reload, users)
    ensures UsersQuery(PreviousLoad(debounced, info).search, PreviousLoad(debounced, info).page)
            == (if debounced == "" then [] else [Param("search", debounced)])
               + [Param("page", info.prev.value)]
  {
  }

  /** The query of Next: the settled term when it is not empty, then the
      next page's token, and a forced reload. */
  lemma NextLoadQuery(debounced: string, info: PageInfo, users: seq<User>)
    requires Truthy(info.next)
    ensures ShouldFetch(NextLoad(debounced, info).reload, users)
    ensures UsersQuery(NextLoad(debounced, info).search, NextLoad(debounced, info).page)
            == (if debounced == "" then [] else [Param("search", debounced)])
               + [Param("page", info.next.value)]
  {
  }

  /** A search for "ann" on page 1 of 3, then Next: the request carries the
      same search and the next page. */
  lemma NextPageOfSearch()
    ensures UsersQuery(NextLoad("ann", PageInfo(None, Some("2"), Some(3))).search,
                       NextLoad("ann", PageInfo(None, Some("2"), Some(3))).page)
            == [Param("search", "ann"), Param("page", "2")]
  {
    NextLoadQuery("ann", PageInfo(None, Some("2"), Some(3)), []);
  }

  /** `isTableLoading`: roles, users or a deletion are loading; the user
      table shows its rows only when none of the three is. */
  function IsTableLoading(isLoadingRoles: bool, isLoadingUsers: bool, isDeletingUser: bool): (b: bool)
    ensures !b <==> !isLoadingRoles && !isLoadingUsers && !isDeletingUser
  {
    isLoadingRoles || isLoadingUsers || isDeletingUser
  }

  /** `!!pages && pages > 1`. */
  function HasSeveralPages(pages: Option<int>): (b: bool)
    ensures b <==> pages.Some? && pages.value > 1
  {
    pages.Some? && pages.value != 0 && pages.value > 1
  }

  /** The body of App's user table: the shared table layout over the users
      page, spinning while anything loads; the pagination row shows exactly
      when nothing loads and there is more than one page. */
  function UsersBody(users: seq<User>, info: PageInfo, roles: seq<Role>,
                     isLoadingRoles: bool, isLoadingUsers: bool, isDeletingUser: bool)
    : (rows: seq<UsersTable.Row>)
    ensures IsTableLoading(isLoadingRoles, isLoadingUsers, isDeletingUser) ==> rows == [UsersTable.Spinner]
    ensures !IsTableLoading(isLoadingRoles, isLoadingUsers, isDeletingUser)
            ==> |rows| == |users| + (if HasSeveralPages(info.pages) then 1 else 0)
                && rows[..|users|] == UsersTable.UserRows(users, roles)
    ensures (exists i :: 0 <= i < |rows| && rows[i].Pager?)
            <==> !isLoadingRoles && !isLoadingUsers && !isDeletingUser && HasSeveralPages(info.pages)
    ensures !IsTableLoading(isLoadingRoles, isLoadingUsers, isDeletingUser) && HasSeveralPages(info.pages)
            ==> rows[|rows| - 1] == UsersTable.Pager(!Truthy(info.prev), !Truthy(info.next))
  {
    UsersTable.Body(users, roles, IsTableLoading(isLoadingRoles, isLoadingUsers, isDeletingUser),
                    HasSeveralPages(info.pages), Truthy(info.prev), Truthy(info.next))
  }

  /** The body of App's role table, which spins on the role load alone:
      otherwise the role rows in order, the "No roles found" row exactly
      when there are none, and the pagination row exactly when there is more
      than one page, with Previous and Next disabled without such a page. */
  function RolesBody(roles: seq<Role>, info: PageInfo, isLoadingRoles: bool): (rows: seq<RolesTable.Row>)
    ensures isLoadingRoles ==> rows == [RolesTable.Spinner]
    ensures !isLoadingRoles ==> |rows| == |roles| + (if |roles| == 0 then 1 else 0)
                                          + (if HasSeveralPages(info.pages) then 1 else 0)
                                && rows[..|roles|] == RolesTable.RoleRows(roles)
    ensures (exists i :: 0 <= i < |rows| && rows[i].EmptyState?) <==> !isLoadingRoles && |roles| == 0
    ensures (exists i :: 0 <= i < |rows| && rows[i].Pager?) <==> !isLoadingRoles && HasSeveralPages(info.pages)
    ensures !isLoadingRoles && HasSeveralPages(info.pages)
            ==> rows[|rows| - 1] == RolesTable.Pager(!Truthy(info.prev), !Truthy(info.next))
  {
    RolesTable.Body(roles, isLoadingRoles, HasSeveralPages(info.pages), Truthy(info.prev), Truthy(info.next))
  }

  /** App's own state cells: the role edit dialog and the error banner. */
  class AppState {
    var editingRole: Option<Role>
    var editRoleName: string
    var editRoleDescription: string
    var errorDisplay: string

    /** The `useState` initial values. */
    constructor ()
      ensures editingRole == None && editRoleName == "" && editRoleDescription == ""
      ensures errorDisplay == ""
    {
      editingRole := None;
      editRoleName := "";
      editRoleDescription := "";
      errorDisplay := "";
    }

    /** `onEditRole(role)`: edit `role`, seeded with its name and its
        description or ''. */
    method OnEditRole(role: Role)
      modifies this
      ensures editingRole == Some(role)
      ensures editRoleName == role.name
      ensures editRoleDescription == DescriptionOrEmpty(role.description)
      ensures errorDisplay == old(errorDisplay)
    {
      editingRole := Some(role);
      editRoleName := role.name;
      editRoleDescription := DescriptionOrEmpty(role.description);
    }

    /** The name field's `onChange`. */
    method ChangeRoleName(name: string)
      modifies this
      ensures editRoleName == name
      ensures editingRole == old(editingRole) && editRoleDescription == old(editRoleDescription)
      ensures errorDisplay == old(errorDisplay)
    {
      editRoleName := name;
    }

    /** The description field's `onChange`. */
    method ChangeRoleDescription(description: string)
      modifies this
      ensures editRoleDescription == description
      ensures editingRole == old(editingRole) && editRoleName == old(editRoleName)
      ensures errorDisplay == old(errorDisplay)
    {
      editRoleDescription := description;
    }

    /** The Save button's `disabled` in App: a blank name, an update in
        progress, or any loaded role with the same name, the edited one
        included. */
    function SaveDisabledFor(roles: seq<Role>, isUpdatingRole: bool): (b: bool)
      reads this
      ensures b <==> IsBlank(editRoleName) || isUpdatingRole
                     || exists i :: 0 <= i < |roles| && SameIgnoringCase(roles[i].name, editRoleName)
    {
      SaveDisabled(editRoleName, isUpdatingRole, DuplicateRoleName(roles, editRoleName))
    }

    /** `handleUpdateRole`: nothing without a role under edit; otherwise the
        update is sent with the form's values. On success the dialog's role is
        cleared; on failure it stays and the banner shows the failure. */
    method HandleUpdateRole(outcome: UpdateOutcome) returns (call: Option<RoleUpdate>)
      modifies this
      ensures old(editingRole).None? ==> call.None? && editingRole == old(editingRole)
                                         && errorDisplay == old(errorDisplay)
      ensures old(editingRole).Some? ==>
                call == Some(RoleUpdate(old(editingRole).value.id, old(editRoleName), old(editRoleDescription)))
      ensures old(editingRole).Some? && outcome.Updated? ==>
                editingRole.None? && errorDisplay == old(errorDisplay)
      ensures old(editingRole).Some? && outcome.UpdateFailed? ==>
                editingRole == old(editingRole)
                && errorDisplay == GetErrorMessage("Updating Role", outcome.error)
      ensures editRoleName == old(editRoleName) && editRoleDescription == old(editRoleDescription)
    {
      if editingRole.None? {
        return None;
      }
      call := Some(RoleUpdate(editingRole.value.id, editRoleName, editRoleDescription));
      match outcome
      case Updated =>
        editingRole := None;
      case UpdateFailed(error) =>
        errorDisplay := GetErrorMessage("Updating Role", error);
    }

    /** The banner's close button. */
    method DismissError()
      modifies this
      ensures errorDisplay == ""
      ensures editingRole == old(editingRole) && editRoleName == old(editRoleName)
              && editRoleDescription == old(editRoleDescription)
    {
      errorDisplay := "";
    }

    /** `runLoadUsers` for a settled search term: a forced reload with the term
        as the only parameter. The store swallows failures, so the banner is
        never set (App's state is outside the frame). */
    method RunLoadUsers(store: UserStore, debounced: string, response: Fetch<User>)
      returns (request: Option<Request>)
      modifies store
      ensures request == Some(Get("/users", if debounced == "" then [] else [Param("search", debounced)]))
      ensures store.users == Committed(old(store.users), response) && !store.isLoadingUsers
      ensures store.roles == old(store.roles) && store.isLoadingRoles == old(store.isLoadingRoles)
    {
      var args := SearchLoad(debounced);
      SearchLoadQuery(debounced, store.users);
      request := store.LoadUsers(response, args.search, args.page, args.reload);
    }

    /** Previous on the user table: a forced reload of the previous page
        under the settled search term. */
    method PreviousUsersPage(store: UserStore, debounced: string, info: PageInfo, response: Fetch<User>)
      returns (request: Option<Request>)
      requires Truthy(info.prev)
      modifies store
      ensures request == Some(Get("/users", (if debounced == "" then [] else [Param("search", debounced)])
                                            + [Param("page", info.prev.value)]))
      ensures store.users == Committed(old(store.users), response) && !store.isLoadingUsers
      ensures store.roles == old(store.roles) && store.isLoadingRoles == old(store.isLoadingRoles)
    {
      var args := PreviousLoad(debounced, info);
      PreviousLoadQuery(debounced, info, store.users);
      request := store.LoadUsers(response, args.search, args.page, args.reload);
    }

    /** Next on the user table: a forced reload of the next page under the
        settled search term. */
    method NextUsersPage(store: UserStore, debounced: string, info: PageInfo, response: Fetch<User>)
      returns (request: Option<Request>)
      requires Truthy(info.next)
      modifies store
      ensures request == Some(Get("/users", (if debounced == "" then [] else [Param("search", debounced)])
                                            + [Param("page", info.next.value)]))
      ensures store.users == Committed(old(store.users), response) && !store.isLoadingUsers
      ensures store.roles == old(store.roles) && store.isLoadingRoles == old(store.isLoadingRoles)
    {
      var args := NextLoad(debounced, info);
      NextLoadQuery(debounced, info, store.users);
      request := store.LoadUsers(response, args.search, args.page, args.reload);
    }

    /** `runLoadRoles` (and Previous/Next on the role table): App passes a
        search, page and reload object, but the store's `loadRoles` takes no
        arguments, so the request never carries them and the role search does
        not filter. */
    method RunLoadRoles(store: UserStore, args: LoadArgs, response: Fetch<Role>) returns (request: Request)
      modifies store
      ensures request == Get("/roles/", [])
      ensures store.roles == Committed(old(store.roles), response) && !store.isLoadingRoles
      ensures store.users == old(store.users) && store.isLoadingUsers == old(store.isLoadingUsers)
    {
      request := store.LoadRoles(response);
    }

    /** `onDeleteUser(user)`: the store's `removeUser`, which cannot fail, so
        the banner is never set. */
    method OnDeleteUser(store: UserStore, user: User)
      modifies store
      ensures store.users == WithoutId(old(store.users), user.id)
      ensures store.roles == old(store.roles) && store.isLoadingUsers == old(store.isLoadingUsers)
              && store.isLoadingRoles == old(store.isLoadingRoles)
    {
      store.RemoveUser(user);
    }
  }
}
