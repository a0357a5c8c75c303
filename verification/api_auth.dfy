/** The pure decisions of src/lib/api-auth.ts: gating an authenticated
    request on a minimum role (`authorizeRequest`, given the outcome of
    authentication as input) and keeping a user inside their own
    condominium (`validateTenantAccess`). */
module ApiAuth {
  import opened Common
  import opened Permissions

  /** `AuthenticatedUser`; `condominioId` is `null` for users bound to no
      condominium. */
  datatype AuthenticatedUser = AuthenticatedUser(id: string, email: string, role: Role, condominioId: Option<string>)

  /** The failures an authentication or authorization result can carry,
      in place of their messages. */
  datatype AuthError =
    | NotAuthenticated
    | ProfileNotFound
    | InternalAuthError
      /** the role was below the minimum the route asked for */
    | AccessDenied(minimumRole: Role)

  /** `AuthResult`: an error (when set) or an authenticated user, with an
      HTTP status. */
  datatype AuthResult = AuthResult(user: Option<AuthenticatedUser>, error: Option<AuthError>, status: int)

  /** A result as authentication produces it: failing, or carrying a user. */
  predicate WellFormed(auth: AuthResult)
  {
    auth.error.Some? || auth.user.Some?
  }

  /** The outcome of `authorizeRequest` once authentication has produced
      `auth`: an authentication failure is passed through; a user below
      `minimumRole` is refused with 403 but kept in the result; otherwise
      the authentication result is returned unchanged. */
  function AuthorizeRequest(auth: AuthResult, minimumRole: Role): (r: AuthResult)
    requires WellFormed(auth)
    ensures auth.error.Some? ==> r == auth
    ensures r.user == auth.user
    ensures r.error.None? <==> auth.error.None? && HasMinimumRole(auth.user.value.role, minimumRole)
    ensures r.error.None? ==> r == auth
    ensures auth.error.None? && r.error.Some? ==> r.error == Some(AccessDenied(minimumRole)) && r.status == 403
  {
    if auth.error.Some? then auth
    else if !HasMinimumRole(auth.user.value.role, minimumRole) then
      AuthResult(auth.user, Some(AccessDenied(minimumRole)), 403)
    else auth
  }

  /** Why tenant access was refused. */
  datatype TenantDenial = NoCondominium | ForeignCondominium

  /** The `{ error, status }` of `validateTenantAccess`. */
  datatype TenantAccess = TenantAccess(error: Option<TenantDenial>, status: int)

  /** `!user.condominio_id` is false: the user is bound to a condominium
      (an empty id counts as none). */
  predicate Bound(user: AuthenticatedUser)
  {
    user.condominioId.Some? && user.condominioId.value != ""
  }

  /** `validateTenantAccess`: ADMIN_SAAS may reach any condominium; anyone
      else only the one they are bound to. */
  function ValidateTenantAccess(user: AuthenticatedUser, requested: string): (a: TenantAccess)
    ensures a.error.None? <==> a.status == 200
    ensures a.error.Some? <==> a.status == 403
    ensures a.error.None? <==> user.role == AdminSaas || (Bound(user) && user.condominioId.value == requested)
    ensures user.role != AdminSaas && !Bound(user) ==> a.error == Some(NoCondominium)
    ensures user.role != AdminSaas && Bound(user) && user.condominioId.value != requested ==>
      a.error == Some(ForeignCondominium)
  {
    if user.role == AdminSaas then TenantAccess(None, 200)
    else if user.condominioId.None? || user.condominioId.value == "" then TenantAccess(Some(NoCondominium), 403)
    else if user.condominioId.value != requested then TenantAccess(Some(ForeignCondominium), 403)
    else TenantAccess(None, 200)
  }

  // ---------------------------------------------------------------------
  // Properties
  // ---------------------------------------------------------------------

  /** Tenant isolation: a user other than ADMIN_SAAS is admitted to at most
      one condominium, the one they are bound to. */
  lemma TenantIsolation(user: AuthenticatedUser, c1: string, c2: string)
    requires user.role != AdminSaas
    requires ValidateTenantAccess(user, c1).error.None?
    requires ValidateTenantAccess(user, c2).error.None?
    ensures c1 == c2 && Bound(user) && user.condominioId == Some(c1)
  {
  }

  /** ADMIN_SAAS is admitted everywhere, bound to a condominium or not. */
  lemma AdminSaasReachesEveryTenant(user: AuthenticatedUser, requested: string)
    requires user.role == AdminSaas
    ensures ValidateTenantAccess(user, requested) == TenantAccess(None, 200)
  {
  }

  /** A granted request names a user whose role reaches the minimum. */
  lemma AuthorizedUserReachesMinimum(auth: AuthResult, minimumRole: Role)
    requires WellFormed(auth)
    requires AuthorizeRequest(auth, minimumRole).error.None?
    ensures AuthorizeRequest(auth, minimumRole).user.Some?
    ensures HasMinimumRole(AuthorizeRequest(auth, minimumRole).user.value.role, minimumRole)
  {
  }

  /** Gating is monotone in the minimum: a request admitted at some level
      is admitted at every lower level. */
  lemma AuthorizeMonotone(auth: AuthResult, higher: Role, lower: Role)
    requires WellFormed(auth)
    requires HasMinimumRole(higher, lower)
    requires AuthorizeRequest(auth, higher).error.None?
    ensures AuthorizeRequest(auth, lower).error.None?
  {
    MinimumRoleIsTotalOrder(auth.user.value.role, higher, lower);
  }

  /** Gating twice at the same level changes nothing. */
  lemma AuthorizeIdempotent(auth: AuthResult, minimumRole: Role)
    requires WellFormed(auth)
    ensures WellFormed(AuthorizeRequest(auth, minimumRole))
    ensures AuthorizeRequest(AuthorizeRequest(auth, minimumRole), minimumRole) == AuthorizeRequest(auth, minimumRole)
  {
  }

  /** Gating a route on the role the permission table requires for a
      (resource, action) pair admits exactly the users holding that
      permission. */
  lemma AuthorizeMatchesPermission(auth: AuthResult, res: Resource, action: Action)
    requires WellFormed(auth) && auth.error.None?
    requires Mapped(res, action)
    ensures AuthorizeRequest(auth, PermissionMap[res][action]).error.None?
      <==> HasPermission(auth.user.value.role, res, action)
  {
  }
}
