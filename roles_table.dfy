/** The `RolesTable` component of client/src/components/RolesTable.tsx: its
    edit-dialog state (a class over the three state cells) and a view model of
    its table body. */
module RolesTable {
  import opened Models
  import opened JsString
  import opened RoleValidation

  /** The placeholder the role table means to show for a missing description. */
  const EmDash := "\U{2014}"

  /** What RolesTable.tsx line 77 holds instead: the three characters U+00E2
      U+20AC U+201D, the UTF-8 bytes of an em dash read back as Windows-1252. */
  const MisencodedDash := "\U{00E2}\U{20AC}\U{201D}"

  /** The description cell as the source writes it: `role.description || 'â€”'`. */
  function DescriptionCellAsWritten(d: Option<string>): (cell: string)
    ensures Truthy(d) ==> cell == d.value
    ensures !Truthy(d) ==> cell == MisencodedDash
  {
    if Truthy(d) then d.value else MisencodedDash
  }

  /** A role without a description shows three stray characters rather than a dash. */
  lemma MisencodedPlaceholderShows(r: Role)
    requires !Truthy(r.description)
    ensures DescriptionCellAsWritten(r.description) != EmDash
    ensures |DescriptionCellAsWritten(r.description)| == 3
  {
  }

  /** The description cell as intended, and as App.tsx writes it. A
      description is shown as it is, a missing or empty one as one em dash. */
  function DescriptionCell(d: Option<string>): (cell: string)
    ensures cell != ""
    ensures Truthy(d) ==> cell == d.value
    ensures !Truthy(d) ==> cell == EmDash && |cell| == 1
  {
    if Truthy(d) then d.value else EmDash
  }

  /** The rows of the table body. */
  datatype Row =
    | Spinner
    | RoleRow(key: string, role: Role, defaultBadge: bool, description: string, deleteDisabled: bool)
    | EmptyState
    | Pager(prevDisabled: bool, nextDisabled: bool)

  /** `roles.map(role => <Table.Row key={role.id}> … )`: each row shows the
      Default badge and disables "Delete role" exactly for a default role. */
  function RoleRows(roles: seq<Role>): (rows: seq<Row>)
    ensures |rows| == |roles|
    ensures forall i :: 0 <= i < |rows| ==> rows[i].RoleRow?
    ensures forall i :: 0 <= i < |roles|
                        ==> rows[i] == RoleRow(roles[i].id, roles[i], roles[i].isDefault,
                                               DescriptionCell(roles[i].description), roles[i].isDefault)
  {
    if roles == [] then []
    else
      var r := roles[0];
      [RoleRow(r.id, r, r.isDefault, DescriptionCell(r.description), r.isDefault)] + RoleRows(roles[1..])
  }

  /** The table body: the spinner while loading, otherwise the role rows; the
      "No roles found" row exactly when not loading and there are no roles;
      the pagination row exactly when not loading and there are pages. */
  function Body(roles: seq<Role>, isLoading: bool, hasPages: bool, hasPrev: bool, hasNext: bool)
    : (rows: seq<Row>)
    ensures isLoading ==> rows == [Spinner]
    ensures !isLoading ==> |rows| == |roles| + (if |roles| == 0 then 1 else 0) + (if hasPages then 1 else 0)
                           && rows[..|roles|] == RoleRows(roles)
    ensures (exists i :: 0 <= i < |rows| && rows[i].EmptyState?) <==> !isLoading && |roles| == 0
    ensures (exists i :: 0 <= i < |rows| && rows[i].Pager?) <==> !isLoading && hasPages
    ensures !isLoading && hasPages ==> rows[|rows| - 1] == Pager(!hasPrev, !hasNext)
  {
    var main := if isLoading then [Spinner] else RoleRows(roles);
    var empty := if !isLoading && |roles| == 0 then [EmptyState] else [];
    var pager := if !isLoading && hasPages then [Pager(!hasPrev, !hasNext)] else [];
    var rows := main + empty + pager;
    assert rows[..|main|] == main;
    assert forall i :: 0 <= i < |main| ==> !main[i].EmptyState? && !main[i].Pager?;
    assert forall i :: 0 <= i < |rows| && rows[i].EmptyState? ==> i == |main| && empty != [];
    assert forall i :: 0 <= i < |rows| && rows[i].Pager? ==> i == |main| + |empty| && pager != [];
    assert empty != [] ==> rows[|main|].EmptyState?;
    assert pager != [] ==> rows[|main| + |empty|].Pager?;
    rows
  }

  /** The edit dialog's state cells `editingRole`, `editRoleName` and
      `editRoleDescription`. */
  class EditDialog {
    var editingRole: Option<Role>
    var editRoleName: string
    var editRoleDescription: string

    /** The `useState` initial values: no role, empty fields. */
    constructor ()
      ensures editingRole == None && editRoleName == "" && editRoleDescription == ""
    {
      editingRole := None;
      editRoleName := "";
      editRoleDescription := "";
    }

    /** `handleEditClick(role)`: the dialog edits `role`, seeded with its name
        and its description or ''. */
    method HandleEditClick(role: Role)
      modifies this
      ensures editingRole == Some(role)
      ensures editRoleName == role.name
      ensures editRoleDescription == DescriptionOrEmpty(role.description)
    {
      editingRole := Some(role);
      editRoleName := role.name;
      editRoleDescription := DescriptionOrEmpty(role.description);
    }

    /** The name field's `onChange`. */
    method ChangeName(name: string)
      modifies this
      ensures editRoleName == name
      ensures editingRole == old(editingRole) && editRoleDescription == old(editRoleDescription)
    {
      editRoleName := name;
    }

    /** The description field's `onChange`. */
    method ChangeDescription(description: string)
      modifies this
      ensures editRoleDescription == description
      ensures editingRole == old(editingRole) && editRoleName == old(editRoleName)
    {
      editRoleDescription := description;
    }

    /** The Save button's `disabled`: a blank name, an update in progress, or
        another role with the same name, ignoring case. */
    function SaveDisabledFor(roles: seq<Role>, isUpdatingRole: bool): (b: bool)
      reads this
      ensures b <==> IsBlank(editRoleName) || isUpdatingRole
                     || exists i :: 0 <= i < |roles| && !IsEditedRole(roles[i], editingRole)
                                    && SameIgnoringCase(roles[i].name, editRoleName)
    {
      SaveDisabled(editRoleName, isUpdatingRole, HasDuplicateRole(roles, editingRole, editRoleName))
    }

    /** The Save button's `onClick`: `onEditRole(editingRole!.id, editRoleName,
        editRoleDescription)`, which needs a role under edit. */
    function SaveCall(): (call: RoleUpdate)
      reads this
      requires editingRole.Some?
      ensures call.roleId == editingRole.value.id
      ensures call.name == editRoleName && call.description == editRoleDescription
    {
      RoleUpdate(editingRole.value.id, editRoleName, editRoleDescription)
    }
  }
}
