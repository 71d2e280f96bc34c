/** The records the client exchanges with the REST server, as the client code
    uses them. Timestamps are kept as the server's strings: the client only
    formats them for display. */
module Models {

  datatype Option<+T> = None | Some(value: T)

  /** A user row of the `/users` collection. */
  datatype User = User(
    id: string,
    first: string,
    last: string,
    photo: Option<string>,
    roleId: string,
    createdAt: string)

  /** A role row of the `/roles` collection; a default role may not be deleted. */
  datatype Role = Role(
    id: string,
    name: string,
    description: Option<string>,
    isDefault: bool,
    createdAt: string)

  /** What an awaited HTTP call settles to, in place of the api module's promise:
      the `data` array of the paged response, or a rejection with its detail. */
  datatype Fetch<+T> = Success(data: seq<T>) | Failure(error: string)

  /** The arguments of a role update: `(roleId, name, description)`. */
  datatype RoleUpdate = RoleUpdate(roleId: string, name: string, description: string)

  /** JavaScript truthiness of an optional string: absent and "" are both falsy. */
  predicate Truthy(s: Option<string>) {
    s.Some? && s.value != ""
  }
}
