/** The `UsersTable` component of client/src/components/UsersTable.tsx as a
    view model: which rows its body renders, in what order, with what role
    label, and which pagination buttons are disabled. */
module UsersTable {
  import opened Models

  /** Role `i` is the first one carrying `roleId`. */
  predicate IsFirstMatch(roles: seq<Role>, roleId: string, i: nat)
    requires i < |roles|
  {
    roles[i].id == roleId && forall j :: 0 <= j < i ==> roles[j].id != roleId
  }

  /** `roles.find(role => role.id === roleId)`. */
  function FindRole(roles: seq<Role>, roleId: string): (r: Option<Role>)
    ensures r.None? <==> forall i :: 0 <= i < |roles| ==> roles[i].id != roleId
    ensures forall i :: 0 <= i < |roles| && IsFirstMatch(roles, roleId, i) ==> r == Some(roles[i])
  {
    if roles == [] then None
    else if roles[0].id == roleId then Some(roles[0])
    else
      var r := FindRole(roles[1..], roleId);
      assert forall i :: 1 <= i < |roles| && IsFirstMatch(roles, roleId, i)
                         ==> IsFirstMatch(roles[1..], roleId, i - 1);
      r
  }

  /** `getRoleLabel`: the name of the first role with the id, or 'Unknown'
      when there is none or its name is empty (a later role with the same id
      is never consulted). */
  function RoleLabel(roleId: string, roles: seq<Role>): (text: string)
    ensures text != ""
    ensures forall i :: 0 <= i < |roles| && IsFirstMatch(roles, roleId, i)
                        ==> text == if roles[i].name != "" then roles[i].name else "Unknown"
    ensures (forall i :: 0 <= i < |roles| ==> roles[i].id != roleId) ==> text == "Unknown"
  {
    var found := FindRole(roles, roleId);
    if found.Some? && found.value.name != "" then found.value.name else "Unknown"
  }

  /** The rows of the table body. */
  datatype Row =
    | Spinner
    | UserRow(key: string, user: User, roleLabel: string)
    | Pager(prevDisabled: bool, nextDisabled: bool)

  /** `users.map(user => <Table.Row key={user.id}> … )`. */
  function UserRows(users: seq<User>, roles: seq<Role>): (rows: seq<Row>)
    ensures |rows| == |users|
    ensures forall i :: 0 <= i < |rows| ==> rows[i].UserRow?
    ensures forall i :: 0 <= i < |users|
                        ==> rows[i] == UserRow(users[i].id, users[i], RoleLabel(users[i].roleId, roles))
  {
    if users == [] then []
    else [UserRow(users[0].id, users[0], RoleLabel(users[0].roleId, roles))] + UserRows(users[1..], roles)
  }

  /** The table body: the spinner alone while loading, otherwise one row per
      user in order; then the pagination row when not loading and there are
      pages, with Previous disabled without a previous page and Next
      disabled without a next one. */
  function Body(users: seq<User>, roles: seq<Role>, isLoading: bool,
                hasPages: bool, hasPrev: bool, hasNext: bool): (rows: seq<Row>)
    ensures isLoading ==> rows == [Spinner]
    ensures !isLoading ==> |rows| == |users| + (if hasPages then 1 else 0)
                           && rows[..|users|] == UserRows(users, roles)
    ensures (exists i :: 0 <= i < |rows| && rows[i].Pager?) <==> !isLoading && hasPages
    ensures !isLoading && hasPages ==> rows[|rows| - 1] == Pager(!hasPrev, !hasNext)
  {
    var main := if isLoading then [Spinner] else UserRows(users, roles);
    var pager := if !isLoading && hasPages then [Pager(!hasPrev, !hasNext)] else [];
    var rows := main + pager;
    assert rows[..|main|] == main;
    assert forall i :: 0 <= i < |main| ==> !main[i].Pager?;
    assert forall i :: 0 <= i < |rows| && rows[i].Pager? ==> i == |main| && pager != [];
    assert pager != [] ==> rows[|main|].Pager?;
    rows
  }

  /** The user that the "Delete user" confirmation of a row hands to
      `onDeleteUser`. */
  function ConfirmDeleteTarget(row: Row): (target: Option<User>)
    ensures target.Some? <==> row.UserRow?
    ensures row.UserRow? ==> target == Some(row.user)
  {
    if row.UserRow? then Some(row.user) else None
  }

  /** Confirming deletion in the `i`th row deletes the `i`th user. */
  lemma ConfirmDeleteTargetsRowUser(users: seq<User>, roles: seq<Role>,
                                    hasPages: bool, hasPrev: bool, hasNext: bool, i: nat)
    requires i < |users|
    ensures ConfirmDeleteTarget(Body(users, roles, false, hasPages, hasPrev, hasNext)[i]) == Some(users[i])
  {
    var rows := Body(users, roles, false, hasPages, hasPrev, hasNext);
    assert rows[i] == rows[..|users|][i];
  }
}
