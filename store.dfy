/** The client store of client/src/store.ts: the loaded users and roles, a
    loading flag for each, and the actions that change them. The HTTP calls
    are replaced by the request the action issues (an out-parameter) and
    the way that request settles (a `Fetch` parameter). */
module Store {
  import opened Models

  /** One `key=value` pair of a `URLSearchParams`. */
  datatype Param = Param(key: string, value: string)

  /** A GET request: the path and its query parameters in order. */
  datatype Request = Get(path: string, params: seq<Param>)

  /** `URLSearchParams.get(key)`: the value of the first pair with that key. */
  function Lookup(params: seq<Param>, key: string): (r: Option<string>)
    ensures r.None? <==> forall i :: 0 <= i < |params| ==> params[i].key != key
    ensures r.Some? ==> exists i :: 0 <= i < |params| && params[i] == Param(key, r.value)
                                    && forall j :: 0 <= j < i ==> params[j].key != key
  {
    if params == [] then None
    else if params[0].key == key then Some(params[0].value)
    else
      var r := Lookup(params[1..], key);
      assert r.Some? ==> exists i :: 1 <= i < |params| && params[i] == Param(key, r.value)
                                     && forall j :: 0 <= j < i ==> params[j].key != key
        by {
          if r.Some? {
            var k :| 0 <= k < |params[1..]| && params[1..][k] == Param(key, r.value)
                     && forall j :: 0 <= j < k ==> params[1..][j].key != key;
            assert params[k + 1] == Param(key, r.value);
            assert forall j :: 0 <= j < k + 1 ==> params[j].key != key by {
              forall j | 0 <= j < k + 1 ensures params[j].key != key {
                if j > 0 { assert params[j] == params[1..][j - 1]; }
              }
            }
          }
        }
      r
  }

  /** The query `loadUsers` sends: `search` when the search string is
      truthy, then `page` when the page string is truthy, and nothing else. */
  function UsersQuery(search: Option<string>, page: Option<string>): (r: seq<Param>)
    ensures Lookup(r, "search") == (if Truthy(search) then search else None)
    ensures Lookup(r, "page") == (if Truthy(page) then page else None)
    ensures forall i :: 0 <= i < |r| ==> r[i].key == "search" || r[i].key == "page"
    ensures forall i, j :: 0 <= i < j < |r| ==> r[i].key == "search" && r[j].key == "page"
  {
    var s := if Truthy(search) then [Param("search", search.value)] else [];
    var p := if Truthy(page) then [Param("page", page.value)] else [];
    assert s + p == [] || (s + p)[0].key == (if Truthy(search) then "search" else "page");
    s + p
  }

  /** The cache-first test of `loadUsers`: it fetches when asked to reload
      or when no users are held yet. */
  predicate ShouldFetch(reload: bool, users: seq<User>): (b: bool)
    ensures !b <==> !reload && |users| > 0
  {
    reload || |users| == 0
  }

  /** The list a settled load leaves behind: the response's `data` on
      success, the list held before on failure. */
  function Committed<T>(current: seq<T>, response: Fetch<T>): (r: seq<T>)
    ensures response.Success? ==> r == response.data
    ensures response.Failure? ==> r == current
  {
    match response
    case Success(data) => data
    case Failure(_) => current
  }

  /** `users.filter(current => current.id !== id)`. */
  function WithoutId(users: seq<User>, id: string): (r: seq<User>)
    ensures |r| <= |users|
    ensures forall i :: 0 <= i < |r| ==> r[i].id != id
    ensures forall u :: multiset(r)[u] == if u.id == id then 0 else multiset(users)[u]
  {
    if users == [] then []
    else
      var rest := WithoutId(users[1..], id);
      assert users == [users[0]] + users[1..];
      assert multiset(users) == multiset{users[0]} + multiset(users[1..]);
      if users[0].id == id then rest
      else
        assert multiset([users[0]] + rest) == multiset{users[0]} + multiset(rest);
        [users[0]] + rest
  }

  /** Filtering distributes over concatenation, so the kept users stay in
      their original order. */
  lemma {:induction false} WithoutIdAppend(a: seq<User>, b: seq<User>, id: string)
    ensures WithoutId(a + b, id) == WithoutId(a, id) + WithoutId(b, id)
  {
    if a == [] {
      assert a + b == b;
    } else {
      assert (a + b)[1..] == a[1..] + b;
      WithoutIdAppend(a[1..], b, id);
    }
  }

  /** A list without the id is left as it is. */
  lemma {:induction false} WithoutIdAbsent(users: seq<User>, id: string)
    requires forall i :: 0 <= i < |users| ==> users[i].id != id
    ensures WithoutId(users, id) == users
  {
    if users != [] {
      WithoutIdAbsent(users[1..], id);
    }
  }

  /** Removing a user twice is removing it once. */
  lemma WithoutIdIdempotent(users: seq<User>, id: string)
    ensures WithoutId(WithoutId(users, id), id) == WithoutId(users, id)
  {
    WithoutIdAbsent(WithoutId(users, id), id);
  }

  /** Removing a user just added, whose id was not held before, gives back
      the list as it was. */
  lemma RemoveUndoesAdd(users: seq<User>, u: User)
    requires forall i :: 0 <= i < |users| ==> users[i].id != u.id
    ensures WithoutId(users + [u], u.id) == users
  {
    WithoutIdAppend(users, [u], u.id);
    WithoutIdAbsent(users, u.id);
    assert WithoutId([u], u.id) == [];
  }

  class UserStore {
    var users: seq<User>
    var roles: seq<Role>
    var isLoadingUsers: bool
    var isLoadingRoles: bool

    /** The store as `create` builds it: both lists empty, nothing loading. */
    constructor ()
      ensures users == [] && roles == [] && !isLoadingUsers && !isLoadingRoles
    {
      users := [];
      roles := [];
      isLoadingUsers := false;
      isLoadingRoles := false;
    }

    /** `loadUsers` up to its `await`: either the cache-first return, with
        nothing changed, or the loading flag raised and the request issued.
        An absent `reload` is false. */
    method BeginLoadUsers(search: Option<string> := None, page: Option<string> := None,
                          reload: bool := false) returns (request: Option<Request>)
      modifies this
      ensures request.Some? <==> ShouldFetch(reload, old(users))
      ensures request.Some? ==> request.value == Get("/users", UsersQuery(search, page))
      ensures isLoadingUsers == (request.Some? || old(isLoadingUsers))
      ensures users == old(users) && roles == old(roles) && isLoadingRoles == old(isLoadingRoles)
    {
      if !ShouldFetch(reload, users) {
        return None;
      }
      isLoadingUsers := true;
      request := Some(Get("/users", UsersQuery(search, page)));
    }

    /** `loadUsers` after its `await`: on success the list is replaced by the
        response's data; a failure is swallowed and leaves the list; the flag
        is lowered in either case. */
    method SettleLoadUsers(response: Fetch<User>)
      modifies this
      ensures users == Committed(old(users), response)
      ensures !isLoadingUsers
      ensures roles == old(roles) && isLoadingRoles == old(isLoadingRoles)
    {
      if response.Success? {
        users := response.data;
      }
      isLoadingUsers := false;
    }

    /** A whole `loadUsers` call, the request settling as `response`. */
    method LoadUsers(response: Fetch<User>, search: Option<string> := None,
                     page: Option<string> := None, reload: bool := false)
      returns (request: Option<Request>)
      modifies this
      ensures request.Some? <==> ShouldFetch(reload, old(users))
      ensures request.None? ==> users == old(users) && isLoadingUsers == old(isLoadingUsers)
      ensures request.Some? ==> request.value == Get("/users", UsersQuery(search, page))
                                && users == Committed(old(users), response) && !isLoadingUsers
      ensures roles == old(roles) && isLoadingRoles == old(isLoadingRoles)
    {
      request := BeginLoadUsers(search, page, reload);
      if request.Some? {
        SettleLoadUsers(response);
      }
    }

    /** `addUser`: the user goes to the end of the list. */
    method AddUser(user: User)
      modifies this
      ensures users == old(users) + [user]
      ensures roles == old(roles) && isLoadingUsers == old(isLoadingUsers)
              && isLoadingRoles == old(isLoadingRoles)
    {
      users := users + [user];
    }

    /** `removeUser`: every user with the given user's id is dropped. */
    method RemoveUser(user: User)
      modifies this
      ensures users == WithoutId(old(users), user.id)
      ensures roles == old(roles) && isLoadingUsers == old(isLoadingUsers)
              && isLoadingRoles == old(isLoadingRoles)
    {
      users := WithoutId(users, user.id);
    }

    /** `loadRoles` up to its `await`: it never short-circuits and sends no
        query parameters. */
    method BeginLoadRoles() returns (request: Request)
      modifies this
      ensures request == Get("/roles/", [])
      ensures isLoadingRoles
      ensures users == old(users) && roles == old(roles) && isLoadingUsers == old(isLoadingUsers)
    {
      isLoadingRoles := true;
      request := Get("/roles/", []);
    }

    /** `loadRoles` after its `await`, as for users. */
    method SettleLoadRoles(response: Fetch<Role>)
      modifies this
      ensures roles == Committed(old(roles), response)
      ensures !isLoadingRoles
      ensures users == old(users) && isLoadingUsers == old(isLoadingUsers)
    {
      if response.Success? {
        roles := response.data;
      }
      isLoadingRoles := false;
    }

    /** A whole `loadRoles` call, the request settling as `response`. */
    method LoadRoles(response: Fetch<Role>) returns (request: Request)
      modifies this
      ensures request == Get("/roles/", [])
      ensures roles == Committed(old(roles), response) && !isLoadingRoles
      ensures users == old(users) && isLoadingUsers == old(isLoadingUsers)
    {
      request := BeginLoadRoles();
      SettleLoadRoles(response);
    }
  }
}
