// Role helpers over the Auth0 session user: role membership tests on the
// namespaced roles claim, the authentication and role requirements, and
// the user-id fallback chain.

module Auth {
  import opened Domain

  /**
   * The session user's claims this module reads: `sub`, the namespaced
   * roles claim and the namespaced user-id claim; each may be absent.
   */
  datatype Auth0User = Auth0User(sub: Option<string>, roles: Option<seq<string>>, userIdClaim: Option<string>)

  /** The `UserRole` values. */
  const UserRoleAdmin: string := "admin"
  const UserRoleUser: string := "user"
  const UserRoleModerator: string := "moderator"

  const AuthenticationRequired: string := "Authentication required"

  /** The roles claim, or no roles when the claim is absent. */
  function RolesOf(user: Auth0User): seq<string> {
    user.roles.GetOr([])
  }

  /** `hasRole`: a present user whose roles claim lists `role`. */
  function HasRole(user: Option<Auth0User>, role: string): (r: bool)
    ensures user.None? ==> !r
    ensures r <==> user.Some? && user.value.roles.Some? && role in user.value.roles.value
  {
    if user.None? then false
    else
      var roles := RolesOf(user.value);
      role in roles
  }

  /** `roles.some((role) => userRoles.includes(role))`, scanning `roles` in order. */
  function SomeIncluded(roles: seq<string>, userRoles: seq<string>): (r: bool)
    ensures r <==> exists k :: 0 <= k < |roles| && roles[k] in userRoles
  {
    if |roles| == 0 then false
    else if roles[0] in userRoles then true
    else
      var rest := SomeIncluded(roles[1..], userRoles);
      assert rest <==> exists k :: 1 <= k < |roles| && roles[k] in userRoles by {
        if rest {
          var k :| 0 <= k < |roles[1..]| && roles[1..][k] in userRoles;
          assert roles[k + 1] in userRoles;
        }
      }
      rest
  }

  /** `hasAnyRole`: a present user holding at least one of `roles`. */
  function HasAnyRole(user: Option<Auth0User>, roles: seq<string>): (r: bool)
    ensures user.None? ==> !r
  {
    if user.None? then false
    else
      var userRoles := RolesOf(user.value);
      SomeIncluded(roles, userRoles)
  }

  /** `hasAnyRole` is `hasRole` for some listed role; in particular it is false for no roles. */
  lemma {:induction false} HasAnyRoleIsSomeHasRole(user: Option<Auth0User>, roles: seq<string>)
    ensures HasAnyRole(user, roles) <==> exists role :: role in roles && HasRole(user, role)
    ensures |roles| == 0 ==> !HasAnyRole(user, roles)
  {
    if user.Some? {
      var userRoles := RolesOf(user.value);
      if HasAnyRole(user, roles) {
        var k :| 0 <= k < |roles| && roles[k] in userRoles;
        assert roles[k] in roles && HasRole(user, roles[k]);
      }
      if exists role :: role in roles && HasRole(user, role) {
        var role :| role in roles && HasRole(user, role);
        var k :| 0 <= k < |roles| && roles[k] == role;
        assert roles[k] in userRoles;
      }
    }
  }

  /** `requireAuth`, given the current session user: fails when there is none. */
  function RequireAuth(user: Option<Auth0User>): (r: Result<Auth0User, string>)
    ensures r.Success? <==> user.Some?
    ensures r.Success? ==> r.value == user.value
    ensures r.Failure? ==> r.error == AuthenticationRequired
  {
    if user.None? then Failure(AuthenticationRequired) else Success(user.value)
  }

  /** The error text of a missing role. */
  function RoleRequired(role: string): string {
    "Role '" + role + "' required"
  }

  /** `requireRole`: authentication first, then the role test. */
  function RequireRole(user: Option<Auth0User>, role: string): (r: Result<Auth0User, string>)
    ensures r.Success? <==> HasRole(user, role)
    ensures r.Success? ==> r.value == user.value
    ensures user.None? ==> r == Failure(AuthenticationRequired)
    ensures user.Some? && !HasRole(user, role) ==> r == Failure(RoleRequired(role))
  {
    match RequireAuth(user)
    case Failure(e) => Failure(e)
    case Success(u) => if !HasRole(Some(u), role) then Failure(RoleRequired(role)) else Success(u)
  }

  /** A user who passes `requireRole(role)` passes `hasAnyRole` for every list naming that role. */
  lemma {:induction false} RequiredRoleSatisfiesAnyRole(user: Option<Auth0User>, role: string, roles: seq<string>)
    requires RequireRole(user, role).Success? && role in roles
    ensures HasAnyRole(user, roles)
  {
    HasAnyRoleIsSomeHasRole(user, roles);
  }

  /**
   * The `UserRole` values are distinct, so holding one of them says nothing
   * about the others: a user whose only role is `user` passes neither
   * `requireRole('admin')` nor `requireRole('moderator')`.
   */
  lemma {:induction false} PlainUserIsNotStaff(user: Auth0User)
    requires user.roles == Some([UserRoleUser])
    ensures RequireRole(Some(user), UserRoleUser).Success?
    ensures RequireRole(Some(user), UserRoleAdmin) == Failure(RoleRequired(UserRoleAdmin))
    ensures !HasAnyRole(Some(user), [UserRoleAdmin, UserRoleModerator])
  {
    assert UserRoleAdmin != UserRoleUser && UserRoleModerator != UserRoleUser;
    HasAnyRoleIsSomeHasRole(Some(user), [UserRoleAdmin, UserRoleModerator]);
  }

  /** An optional string that JavaScript's `||` keeps: present and non-empty. */
  predicate Truthy(s: Option<string>) {
    s.Some? && s.value != ""
  }

  /**
   * `getUserId`: `sub` when present and non-empty, else the user-id claim
   * when present and non-empty, else null.
   */
  function GetUserId(user: Option<Auth0User>): (r: Option<string>)
    ensures r.None? <==> user.None? || (!Truthy(user.value.sub) && !Truthy(user.value.userIdClaim))
    ensures r.Some? ==> r.value != "" && (r == user.value.sub || r == user.value.userIdClaim)
    ensures user.Some? && Truthy(user.value.sub) ==> r == user.value.sub
  {
    if user.None? then None
    else if Truthy(user.value.sub) then user.value.sub
    else if Truthy(user.value.userIdClaim) then user.value.userIdClaim
    else None
  }
}
