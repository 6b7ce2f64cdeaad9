/** Shared vocabulary of the workspace handlers: statuses, role names, the workspace
    record, membership records and the abstract database state they read and write. */
module WorkspaceState {

  datatype Option<T> = None | Some(value: T)

  datatype Result<T, E> = Success(value: T) | Failure(error: E)

  /** The HTTP statuses the handlers answer with. */
  datatype Status = OK | BadRequest | Unauthorized | Forbidden | NotAcceptable | InternalServerError

  /** Role names of the capability registry that the handlers ask about. */
  const EditOrg := "EDIT ORGANIZATION"
  const AddUser := "ADD USER"
  const DeleteUser := "DELETE USER"
  const AddRoles := "ADD ROLES"
  const ViewReport := "VIEW REPORT"

  /** `db.UserHasAccess(pubkey, workspaceUuid, role)`: the access evaluator, whose
      definition lives in the database layer and is an input here. */
  type Access = (string, string, string) -> bool

  /** A workspace (`db.Organization`). `budget` and `bountyCount` are the fields the
      listings fill in for their answer; `cleared` records that the profile fields were
      cleared by `UpdateWorkspaceForDeletion`. Times are opaque numbers. */
  datatype Workspace = Workspace(
    id: nat,
    uuid: string,
    name: string,
    ownerPubKey: string,
    description: string,
    github: string,
    created: Option<nat>,
    updated: Option<nat>,
    deleted: bool,
    cleared: bool,
    budget: nat,
    bountyCount: nat)

  /** The zero record a lookup answers with when nothing matches. */
  const EmptyWorkspace := Workspace(0, "", "", "", "", "", None, None, false, false, 0, 0)

  /** A workspace membership row (`db.OrganizationUsers`): member pubkey and workspace uuid. */
  datatype Membership = Membership(pubkey: string, orgUuid: string)

  /** The part of the database the handlers change: workspaces by uuid, membership rows,
      and the pubkeys known to the people table. */
  datatype Store = Store(
    workspaces: map<string, Workspace>,
    members: set<Membership>,
    people: set<string>)

  /** `GetWorkspaceByUuid`: the stored workspace, or the zero record. */
  function GetWorkspaceByUuid(st: Store, uuid: string): Workspace {
    if uuid in st.workspaces then st.workspaces[uuid] else EmptyWorkspace
  }

  /** `GetPersonByPubkey(pubkey).OwnerPubKey`: the pubkey itself when the person is
      known, otherwise the empty pubkey of the zero record. */
  function PersonPubKey(st: Store, pubkey: string): string {
    if pubkey in st.people then pubkey else ""
  }
}
