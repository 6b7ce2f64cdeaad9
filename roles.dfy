/** `AddUserRoles`: an ordered chain of rejections, then a loop that validates each
    submitted role and stamps it, then a membership check, and only then one batch
    write. Every rejection is answered with 401 and writes nothing. */
module RoleGrants {
  import opened WorkspaceState

  /** A submitted role entry (`db.UserRoles`); `created` is stamped by the handler. */
  datatype UserRole = UserRole(role: string, ownerPubKey: string, orgUuid: string, created: Option<nat>)

  /** Why a grant was rejected, in the order the handler tests. */
  datatype RoleRejection =
    | MissingParams    // no workspace uuid or no target pubkey in the route
    | NoAuth           // no authenticated caller
    | CallerInEntries  // the caller is among the submitted entries
    | TargetIsCaller   // the route names the caller as the target
    | LacksAddRoles    // the caller may not add roles
    | UnknownRole      // an entry's role is not in the roles map
    | RoleNotHeld      // the caller does not hold an entry's role
    | NotMember        // the target has no membership row in the workspace

  /** `db.CheckUser(roles, pubkey)`, whose definition is not part of this model. */
  type CheckUser = (seq<UserRole>, string) -> bool

  /** The caller may hand out this role: it is known and the caller holds it. */
  predicate Grantable(role: string, rolesMap: map<string, string>, hasAccess: Access, caller: string, uuid: string) {
    role in rolesMap && hasAccess(caller, uuid, role)
  }

  /** The straight-line guards before the loop, in order; `None` when all pass. */
  function Precheck(hasAccess: Access, checkUser: CheckUser, caller: string, uuid: string, user: string,
                    roles: seq<UserRole>): (r: Option<RoleRejection>)
    ensures r == None <==>
      uuid != "" && user != "" && caller != "" && !checkUser(roles, caller)
      && caller != user && hasAccess(caller, uuid, AddRoles)
    ensures r != None ==> r.value in {MissingParams, NoAuth, CallerInEntries, TargetIsCaller, LacksAddRoles}
  {
    if uuid == "" || user == "" then Some(MissingParams)
    else if caller == "" then Some(NoAuth)
    else if checkUser(roles, caller) then Some(CallerInEntries)
    else if caller == user then Some(TargetIsCaller)
    else if !hasAccess(caller, uuid, AddRoles) then Some(LacksAddRoles)
    else None
  }

  /** Index of the first submitted role the caller may not grant, or `|roles|`. */
  function FirstUngrantable(roles: seq<UserRole>, rolesMap: map<string, string>, hasAccess: Access,
                            caller: string, uuid: string): (k: nat)
    ensures k <= |roles|
    ensures forall i :: 0 <= i < k ==> Grantable(roles[i].role, rolesMap, hasAccess, caller, uuid)
    ensures k < |roles| ==> !Grantable(roles[k].role, rolesMap, hasAccess, caller, uuid)
    decreases |roles|
  {
    if roles == [] || !Grantable(roles[0].role, rolesMap, hasAccess, caller, uuid) then 0
    else 1 + FirstUngrantable(roles[1..], rolesMap, hasAccess, caller, uuid)
  }

  /** The handler. On success the result is the batch passed to `CreateUserRoles`:
      every submitted entry, in order, stamped with the one time `now`. */
  method AddUserRoles(members: set<Membership>, rolesMap: map<string, string>, hasAccess: Access,
                      checkUser: CheckUser, caller: string, uuid: string, user: string,
                      roles: seq<UserRole>, now: nat)
    returns (r: Result<seq<UserRole>, RoleRejection>)
    // the guards before the loop, in order
    ensures Precheck(hasAccess, checkUser, caller, uuid, user, roles) != None ==>
      r == Failure(Precheck(hasAccess, checkUser, caller, uuid, user, roles).value)
    // the first role that fails decides between an unknown and an unheld role
    ensures Precheck(hasAccess, checkUser, caller, uuid, user, roles) == None ==>
      var k := FirstUngrantable(roles, rolesMap, hasAccess, caller, uuid);
      && (k < |roles| && roles[k].role !in rolesMap ==> r == Failure(UnknownRole))
      && (k < |roles| && roles[k].role in rolesMap ==> r == Failure(RoleNotHeld))
      && (k == |roles| && Membership(user, uuid) !in members ==> r == Failure(NotMember))
      && (k == |roles| && Membership(user, uuid) in members ==> r.Success?)
    // self-grants are refused
    ensures caller == user || (caller != "" && checkUser(roles, caller)) ==> r.Failure?
    // all or nothing, within the delegation ceiling, only to a member
    ensures r.Success? ==>
      && |r.value| == |roles|
      && (forall i :: 0 <= i < |roles| ==> r.value[i] == roles[i].(created := Some(now)))
      && (forall i :: 0 <= i < |roles| ==> r.value[i].role in rolesMap && hasAccess(caller, uuid, r.value[i].role))
      && caller != "" && caller != user && hasAccess(caller, uuid, AddRoles)
      && Membership(user, uuid) in members
  {
    if uuid == "" || user == "" {
      return Failure(MissingParams);
    }
    if caller == "" {
      return Failure(NoAuth);
    }
    var hasRole := hasAccess(caller, uuid, AddRoles);
    var isUser := checkUser(roles, caller);
    if isUser {
      return Failure(CallerInEntries);
    }
    if caller == user {
      return Failure(TargetIsCaller);
    }
    if !hasRole {
      return Failure(LacksAddRoles);
    }
    ghost var k := FirstUngrantable(roles, rolesMap, hasAccess, caller, uuid);
    var insertRoles: seq<UserRole> := [];
    var i := 0;
    while i < |roles|
      invariant 0 <= i <= |roles| && i <= k
      invariant |insertRoles| == i
      invariant forall j :: 0 <= j < i ==> insertRoles[j] == roles[j].(created := Some(now))
    {
      var role := roles[i];
      if role.role !in rolesMap {
        return Failure(UnknownRole);
      }
      if !hasAccess(caller, uuid, role.role) {
        return Failure(RoleNotHeld);
      }
      insertRoles := insertRoles + [role.(created := Some(now))];
      i := i + 1;
    }
    // `GetWorkspaceUser(user, uuid)` answers the zero record when there is no such row;
    // since `user` and `uuid` are not empty here, its fields match exactly for a member.
    if Membership(user, uuid) !in members {
      return Failure(NotMember);
    }
    return Success(insertRoles);
  }
}
