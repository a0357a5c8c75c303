/** The role hierarchy and the permission table of src/lib/permissions.ts:
    six roles with numeric levels, and for each (resource, action) pair the
    least role allowed to perform it. A role holds a permission when its
    level reaches the level of the pair's required role. */
module Permissions {
  import opened Common

  datatype Role = AdminSaas | AdminCondominio | Sindico | Conselheiro | Morador | Prestador

  datatype Resource =
    | Dashboard | Lancamentos | Categorias | CentrosCusto | Unidades | Usuarios
    | Quadros | Cartoes | RateioResource | Relatorios | Configuracoes | AuditLog

  datatype Action = View | Create | Update | Delete | Approve

  /** `roleHierarchy`: the numeric level of each role. */
  function RoleLevel(role: Role): (level: nat)
    ensures 10 <= level <= 100
  {
    match role
    case AdminSaas => 100
    case AdminCondominio => 80
    case Sindico => 60
    case Conselheiro => 40
    case Morador => 20
    case Prestador => 10
  }

  /** The roles from the least to the most privileged: the order the levels
      are meant to encode. */
  const Hierarchy: seq<Role> := [Prestador, Morador, Conselheiro, Sindico, AdminCondominio, AdminSaas]

  /** `permissionMap`: for each resource, the actions it maps and the least
      role allowed to perform each. An action absent from a resource's
      entry is denied to every role. */
  const PermissionMap: map<Resource, map<Action, Role>> := map[
    Dashboard := map[View := Morador],
    Lancamentos := map[View := Morador, Create := Conselheiro, Update := Conselheiro,
                       Delete := Sindico, Approve := Sindico],
    Categorias := map[View := Morador, Create := Sindico, Update := Sindico, Delete := AdminCondominio],
    CentrosCusto := map[View := Conselheiro, Create := Sindico, Update := Sindico, Delete := AdminCondominio],
    Unidades := map[View := Morador, Create := Sindico, Update := Sindico, Delete := AdminCondominio],
    Usuarios := map[View := Sindico, Create := AdminCondominio, Update := AdminCondominio, Delete := AdminSaas],
    Quadros := map[View := Morador, Create := Conselheiro, Update := Conselheiro, Delete := Sindico],
    Cartoes := map[View := Morador, Create := Prestador, Update := Prestador, Delete := Sindico],
    RateioResource := map[View := Conselheiro, Create := Sindico, Approve := Sindico],
    Relatorios := map[View := Conselheiro],
    Configuracoes := map[View := Sindico, Update := AdminCondominio],
    AuditLog := map[View := AdminCondominio]
  ]

  /** The pair has an entry in the permission table. */
  predicate Mapped(res: Resource, action: Action)
  {
    res in PermissionMap && action in PermissionMap[res]
  }

  /** `getRequiredRole`: the table entry, or `None` (`null`) when the pair
      has none. */
  function RequiredRole(res: Resource, action: Action): (required: Option<Role>)
    ensures required.None? <==> !Mapped(res, action)
    ensures required.Some? ==> required.value == PermissionMap[res][action]
  {
    if res in PermissionMap && action in PermissionMap[res] then Some(PermissionMap[res][action]) else None
  }

  /** `hasMinimumRole`: the user's level reaches the minimum's level. */
  function HasMinimumRole(userRole: Role, minimumRole: Role): (ok: bool)
    ensures ok <==> Rank(minimumRole) <= Rank(userRole)
  {
    RankIsLevelOrder(userRole, minimumRole);
    RoleLevel(userRole) >= RoleLevel(minimumRole)
  }

  /** `hasPermission`: an unmapped pair is denied; a mapped one is granted
      when the role's level reaches the required role's level. */
  function HasPermission(userRole: Role, res: Resource, action: Action): (granted: bool)
    ensures granted <==> Mapped(res, action) && HasMinimumRole(userRole, PermissionMap[res][action])
  {
    match RequiredRole(res, action)
    case None => false
    case Some(required) => RoleLevel(userRole) >= RoleLevel(required)
  }

  // ---------------------------------------------------------------------
  // The hierarchy
  // ---------------------------------------------------------------------

  /** Position of a role in `Hierarchy`. */
  function Rank(role: Role): (i: nat)
    ensures i < |Hierarchy| && Hierarchy[i] == role
  {
    match role
    case Prestador => 0
    case Morador => 1
    case Conselheiro => 2
    case Sindico => 3
    case AdminCondominio => 4
    case AdminSaas => 5
  }

  /** The levels strictly increase along `Hierarchy`: ADMIN_SAAS >
      ADMIN_CONDOMINIO > SINDICO > CONSELHEIRO > MORADOR > PRESTADOR. */
  lemma LevelsStrictlyOrdered(i: nat, j: nat)
    requires i < j < |Hierarchy|
    ensures RoleLevel(Hierarchy[i]) < RoleLevel(Hierarchy[j])
  {
  }

  /** Comparing levels is comparing positions in the hierarchy. */
  lemma RankIsLevelOrder(a: Role, b: Role)
    ensures RoleLevel(a) >= RoleLevel(b) <==> Rank(a) >= Rank(b)
  {
  }

  /** Distinct roles have distinct levels, so a level names its role. */
  lemma RoleLevelInjective(a: Role, b: Role)
    ensures RoleLevel(a) == RoleLevel(b) <==> a == b
  {
  }

  /** `hasMinimumRole` is a total order: reflexive, antisymmetric,
      transitive, and any two roles are comparable. */
  lemma MinimumRoleIsTotalOrder(a: Role, b: Role, c: Role)
    ensures HasMinimumRole(a, a)
    ensures HasMinimumRole(a, b) && HasMinimumRole(b, a) ==> a == b
    ensures HasMinimumRole(a, b) && HasMinimumRole(b, c) ==> HasMinimumRole(a, c)
    ensures HasMinimumRole(a, b) || HasMinimumRole(b, a)
  {
    RoleLevelInjective(a, b);
  }

  /** ADMIN_SAAS reaches every minimum, and every role reaches PRESTADOR. */
  lemma HierarchyExtremes(r: Role)
    ensures HasMinimumRole(AdminSaas, r)
    ensures HasMinimumRole(r, Prestador)
    ensures HasMinimumRole(r, AdminSaas) <==> r == AdminSaas
  {
  }

  // ---------------------------------------------------------------------
  // The permission table
  // ---------------------------------------------------------------------

  /** A mapped pair is granted exactly to the roles that reach its
      required role; an unmapped pair is denied to everyone. */
  lemma PermissionIsMinimumRole(userRole: Role, res: Resource, action: Action)
    ensures RequiredRole(res, action).None? ==> !HasPermission(userRole, res, action)
    ensures RequiredRole(res, action).Some? ==>
      (HasPermission(userRole, res, action) <==> HasMinimumRole(userRole, RequiredRole(res, action).value))
  {
  }

  /** Creating a dashboard and deleting a report have no entry and are
      denied even to ADMIN_SAAS. */
  lemma UnmappedPairsDenied(userRole: Role)
    ensures RequiredRole(Dashboard, Create) == None && !HasPermission(userRole, Dashboard, Create)
    ensures RequiredRole(Relatorios, Delete) == None && !HasPermission(userRole, Relatorios, Delete)
  {
  }

  /** Permission is inherited upwards: a role at least as high as one that
      holds a permission holds it too. */
  lemma PermissionMonotone(low: Role, high: Role, res: Resource, action: Action)
    requires HasPermission(low, res, action)
    requires HasMinimumRole(high, low)
    ensures HasPermission(high, res, action)
  {
    MinimumRoleIsTotalOrder(high, low, PermissionMap[res][action]);
  }

  /** ADMIN_SAAS holds exactly the mapped permissions. */
  lemma AdminSaasHoldsEveryMapped(res: Resource, action: Action)
    ensures HasPermission(AdminSaas, res, action) <==> Mapped(res, action)
  {
    if Mapped(res, action) {
      HierarchyExtremes(PermissionMap[res][action]);
    }
  }

  /** A service provider may only create and update cards. */
  lemma PrestadorOnlyWorksCards(res: Resource, action: Action)
    ensures HasPermission(Prestador, res, action) <==> res == Cartoes && (action == Create || action == Update)
  {
  }

  /** Deleting a user is reserved to ADMIN_SAAS. */
  lemma OnlyAdminSaasDeletesUsers(userRole: Role)
    ensures HasPermission(userRole, Usuarios, Delete) <==> userRole == AdminSaas
  {
  }

  /** Every resource has an entry, and every entry maps viewing. */
  lemma EveryResourceViewable(res: Resource)
    ensures res in PermissionMap && Mapped(res, View)
  {
  }
}
