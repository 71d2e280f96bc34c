/** The checks that guard the Save button of the role edit dialog, in the two
    versions the client carries: the `RolesTable` component's, which leaves
    the role being edited out of the duplicate search, and the inline one of
    `App`, which does not. */
module RoleValidation {
  import opened Models
  import opened JsString

  /** `role.description || ''`: the text the description field is seeded with. */
  function DescriptionOrEmpty(d: Option<string>): (r: string)
    ensures d.Some? ==> r == d.value
    ensures d.None? ==> r == ""
    ensures r != "" <==> Truthy(d)
  {
    if d.Some? then d.value else ""
  }

  /** `role.id !== editingRole?.id` is false exactly for the edited role (with
      no role being edited, `editingRole?.id` is undefined and no role is it). */
  predicate IsEditedRole(role: Role, editing: Option<Role>): (b: bool)
    ensures editing.None? ==> !b
    ensures editing == Some(role) ==> b
    ensures b ==> editing.Some? && role.id == editing.value.id
    ensures editing.Some? && role.id == editing.value.id ==> b
  {
    editing.Some? && role.id == editing.value.id
  }

  /** `hasDuplicateRole` of the `RolesTable` component: some role other than
      the edited one has the typed name, ignoring case. */
  function HasDuplicateRole(roles: seq<Role>, editing: Option<Role>, name: string): (b: bool)
    ensures b <==> exists i :: 0 <= i < |roles| && !IsEditedRole(roles[i], editing)
                               && SameIgnoringCase(roles[i].name, name)
  {
    if roles == [] then false
    else (!IsEditedRole(roles[0], editing) && SameIgnoringCase(roles[0].name, name))
         || HasDuplicateRole(roles[1..], editing, name)
  }

  /** `duplicateRoleName` of `App`: some loaded role, the edited one included,
      has the typed name, ignoring case. */
  function DuplicateRoleName(roles: seq<Role>, name: string): (b: bool)
    ensures b <==> exists i :: 0 <= i < |roles| && SameIgnoringCase(roles[i].name, name)
  {
    if roles == [] then false
    else SameIgnoringCase(roles[0].name, name) || DuplicateRoleName(roles[1..], name)
  }

  /** `!editRoleName.trim() || isUpdatingRole || duplicate`: Save is disabled
      for a blank name, while an update is running, or on a duplicate name. */
  function SaveDisabled(name: string, isUpdatingRole: bool, duplicate: bool): (b: bool)
    ensures b <==> IsBlank(name) || isUpdatingRole || duplicate
  {
    TrimEmptyIffBlank(name);
    Trim(name) == "" || isUpdatingRole || duplicate
  }

  /** The edited role never conflicts with itself in the `RolesTable` check:
      keeping its name is flagged only when another role has that name. */
  lemma KeptNameIsNoDuplicate(roles: seq<Role>, role: Role)
    requires forall i :: 0 <= i < |roles| && roles[i].id != role.id
                         ==> !SameIgnoringCase(roles[i].name, role.name)
    ensures !HasDuplicateRole(roles, Some(role), role.name)
  {
  }

  /** In `App` an unchanged name always counts as a duplicate of the loaded
      role it came from. */
  lemma KeptNameIsDuplicateInApp(roles: seq<Role>, i: nat)
    requires i < |roles|
    ensures DuplicateRoleName(roles, roles[i].name)
  {
  }

  /** The two checks differ exactly by the roles that share the edited role's id. */
  lemma DuplicateChecksDiffer(roles: seq<Role>, editing: Role, name: string)
    ensures DuplicateRoleName(roles, name)
            <==> HasDuplicateRole(roles, Some(editing), name)
                 || exists i :: 0 <= i < |roles| && roles[i].id == editing.id
                                && SameIgnoringCase(roles[i].name, name)
  {
  }

  /** The consequence for the user: editing only the description of a role
      whose name no other role shares, Save is enabled in the `RolesTable`
      dialog and disabled in the `App` dialog. */
  lemma KeptNameSaveDiffers(roles: seq<Role>, i: nat)
    requires i < |roles|
    requires !IsBlank(roles[i].name)
    requires forall j :: 0 <= j < |roles| && roles[j].id != roles[i].id
                         ==> !SameIgnoringCase(roles[j].name, roles[i].name)
    ensures !SaveDisabled(roles[i].name, false, HasDuplicateRole(roles, Some(roles[i]), roles[i].name))
    ensures SaveDisabled(roles[i].name, false, DuplicateRoleName(roles, roles[i].name))
  {
    KeptNameIsNoDuplicate(roles, roles[i]);
    KeptNameIsDuplicateInApp(roles, i);
  }
}
