/**
 * The signed-in user (context/AuthContext.tsx): the mapping from the backend
 * user record to the client's user, and the state the login, logout and
 * restore calls keep.
 */
module AuthContext {
  import opened Wrappers
  import opened JsText
  import opened Backend

  datatype AuthRole = Admin | UserRole

  datatype AuthUser = AuthUser(
    id: int,
    name: string,
    email: string,
    role: AuthRole,
    emailVerified: bool,
    emailVerifiedAt: Option<string>,
    organizationId: Option<int>,
    raw: User)

  /** `role.name?.toLowerCase().includes('admin')` */
  predicate IsAdminRole(r: Role)
  {
    Contains(ToLower(r.name), "admin")
  }

  /** `roles.some(...)` over the user's roles, none when the list is missing. */
  function HasAdminRole(roles: seq<Role>): (b: bool)
    ensures b <==> exists i :: 0 <= i < |roles| && IsAdminRole(roles[i])
  {
    if |roles| == 0 then false
    else
      var rest := HasAdminRole(roles[1..]);
      assert rest <==> exists i :: 0 <= i < |roles[1..]| && IsAdminRole(roles[1..][i]);
      assert forall i :: 0 < i < |roles| ==> roles[i] == roles[1..][i - 1];
      IsAdminRole(roles[0]) || rest
  }

  /** `mapBackendUser` */
  function MapBackendUser(u: User): (r: AuthUser)
    ensures r.role == Admin <==> exists i :: 0 <= i < |u.roles.GetOr([])| && IsAdminRole(u.roles.GetOr([])[i])
    ensures r.emailVerified <==> u.emailVerifiedAt.Some?
    ensures r.emailVerifiedAt == u.emailVerifiedAt
    ensures u.organization.Some? ==> r.organizationId == Some(u.organization.value.id)
    ensures u.organization.None? ==> r.organizationId.None?
    ensures r.id == u.id && r.name == u.name && r.email == u.email && r.raw == u
  {
    AuthUser(
      u.id, u.name, u.email,
      if HasAdminRole(u.roles.GetOr([])) then Admin else UserRole,
      u.emailVerifiedAt.Some?,
      u.emailVerifiedAt,
      if u.organization.Some? then Some(u.organization.value.id) else None,
      u)
  }

  /** A user without roles, or with a missing role list, is an ordinary user. */
  lemma NoRolesIsUser(u: User)
    requires u.roles.None? || u.roles == Some([])
    ensures MapBackendUser(u).role == UserRole
  {
  }

  /** The reply of `/user` and `/login`: the record wrapped in `data`, or bare. */
  datatype UserPayload = Wrapped(data: User) | Bare(user: User)

  /** `unwrapResource` on a user reply. */
  function UnwrapUser(p: UserPayload): (u: User)
    ensures p.Wrapped? ==> u == p.data
    ensures p.Bare? ==> u == p.user
  {
    match p
    case Wrapped(d) => d
    case Bare(b) => b
  }

  class AuthState {
    var user: Option<AuthUser>
    var isLoading: bool
    var hasTriedRestore: bool

    constructor()
      ensures user.None? && isLoading && !hasTriedRestore
    {
      user := None;
      isLoading := true;
      hasTriedRestore := false;
    }

    /**
     * `fetchCurrentUser`: `reply` is the `/user` reply, `None` when the call
     * failed; `rethrown` reports the failure being passed on.
     */
    method FetchCurrentUser(reply: Option<UserPayload>) returns (rethrown: bool)
      modifies this
      ensures rethrown <==> reply.None?
      ensures reply.Some? ==> user == Some(MapBackendUser(UnwrapUser(reply.value)))
      ensures reply.None? ==> user.None?
      ensures isLoading == old(isLoading) && hasTriedRestore == old(hasTriedRestore)
    {
      if reply.Some? {
        user := Some(MapBackendUser(UnwrapUser(reply.value)));
        rethrown := false;
      } else {
        user := None;
        rethrown := true;
      }
    }

    /** The mount effect: one fetch whose failure is swallowed, then loading ends. */
    method Restore(reply: Option<UserPayload>)
      modifies this
      ensures hasTriedRestore && !isLoading
      ensures reply.Some? ==> user == Some(MapBackendUser(UnwrapUser(reply.value)))
      ensures reply.None? ==> user.None?
    {
      var _ := FetchCurrentUser(reply);
      hasTriedRestore := true;
      isLoading := false;
    }

    /** `login`: a failed call leaves the user as it was and is passed on. */
    method Login(reply: Option<UserPayload>) returns (rethrown: bool)
      modifies this
      ensures rethrown <==> reply.None?
      ensures reply.Some? ==> user == Some(MapBackendUser(UnwrapUser(reply.value)))
      ensures reply.None? ==> user == old(user)
      ensures isLoading == old(isLoading) && hasTriedRestore == old(hasTriedRestore)
    {
      rethrown := reply.None?;
      if reply.Some? {
        user := Some(MapBackendUser(UnwrapUser(reply.value)));
      }
    }

    /** `logout`: the user is cleared whether or not the server call succeeded. */
    method Logout(ok: bool) returns (rethrown: bool)
      modifies this
      ensures user.None?
      ensures rethrown <==> !ok
      ensures isLoading == old(isLoading) && hasTriedRestore == old(hasTriedRestore)
    {
      user := None;
      rethrown := !ok;
    }
  }
}
