/** `CreateWorkspaceUser`, `DeleteWorkspaceUser` and `DeleteWorkspace`: ordered guard
    chains followed by writes to the membership rows and the workspace record. */
module Membership {
  import opened WorkspaceState

  /** Why a membership change was rejected; every one is answered with 401. */
  datatype MemberRejection =
    | NoAuth           // no authenticated caller
    | TargetIsOwner    // the target is the workspace owner
    | TargetIsCaller   // the caller names themself
    | LacksPermission  // the caller lacks ADD USER / DELETE USER
    | UnknownPerson    // the target is not in the people table
    | AlreadyMember    // the target already has a membership row

  /** `CreateWorkspaceUser`: the guards in order, then one membership row is added. */
  function CreateWorkspaceUser(st: Store, hasAccess: Access, caller: string, target: Membership)
    : (r: Result<Store, MemberRejection>)
    ensures caller == "" ==> r == Failure(NoAuth)
    ensures caller != "" && target.pubkey == GetWorkspaceByUuid(st, target.orgUuid).ownerPubKey ==>
      r == Failure(TargetIsOwner)
    ensures caller == target.pubkey ==> r.Failure?
    // the later rejections, each once the guards before it pass
    ensures (caller != "" && target.pubkey != GetWorkspaceByUuid(st, target.orgUuid).ownerPubKey
             && caller == target.pubkey) ==> r == Failure(TargetIsCaller)
    ensures (caller != "" && target.pubkey != GetWorkspaceByUuid(st, target.orgUuid).ownerPubKey
             && caller != target.pubkey && !hasAccess(caller, target.orgUuid, AddUser)) ==>
      r == Failure(LacksPermission)
    ensures (caller != "" && target.pubkey != GetWorkspaceByUuid(st, target.orgUuid).ownerPubKey
             && caller != target.pubkey && hasAccess(caller, target.orgUuid, AddUser)
             && target.pubkey !in st.people && target.pubkey != "") ==> r == Failure(UnknownPerson)
    ensures (caller != "" && target.pubkey != GetWorkspaceByUuid(st, target.orgUuid).ownerPubKey
             && caller != target.pubkey && hasAccess(caller, target.orgUuid, AddUser)
             && (target.pubkey in st.people || target.pubkey == "") && target in st.members) ==>
      r == Failure(AlreadyMember)
    ensures r.Success? <==>
      && caller != ""
      && target.pubkey != GetWorkspaceByUuid(st, target.orgUuid).ownerPubKey
      && caller != target.pubkey
      && hasAccess(caller, target.orgUuid, AddUser)
      && (target.pubkey in st.people || target.pubkey == "")
      && target !in st.members
    ensures r.Success? ==> r.value == st.(members := st.members + {target})
    ensures r.Failure? && r.error == AlreadyMember ==> target in st.members
  {
    var workspace := GetWorkspaceByUuid(st, target.orgUuid);
    if caller == "" then Failure(NoAuth)
    else if target.pubkey == workspace.ownerPubKey then Failure(TargetIsOwner)
    else if caller == target.pubkey then Failure(TargetIsCaller)
    else if !hasAccess(caller, target.orgUuid, AddUser) then Failure(LacksPermission)
    else if PersonPubKey(st, target.pubkey) != target.pubkey then Failure(UnknownPerson)
    else if target in st.members then Failure(AlreadyMember)
    else Success(st.(members := st.members + {target}))
  }

  /** `DeleteWorkspaceUser`: the guards in order, then the membership row is removed. */
  function DeleteWorkspaceUser(st: Store, hasAccess: Access, caller: string, target: Membership)
    : (r: Result<Store, MemberRejection>)
    ensures caller == "" ==> r == Failure(NoAuth)
    ensures caller != "" && target.pubkey == GetWorkspaceByUuid(st, target.orgUuid).ownerPubKey ==>
      r == Failure(TargetIsOwner)
    ensures r.Success? <==>
      && caller != ""
      && target.pubkey != GetWorkspaceByUuid(st, target.orgUuid).ownerPubKey
      && hasAccess(caller, target.orgUuid, DeleteUser)
    ensures (caller != "" && target.pubkey != GetWorkspaceByUuid(st, target.orgUuid).ownerPubKey
             && !hasAccess(caller, target.orgUuid, DeleteUser)) ==> r == Failure(LacksPermission)
    ensures r.Success? ==> r.value == st.(members := st.members - {target})
  {
    var workspace := GetWorkspaceByUuid(st, target.orgUuid);
    if caller == "" then Failure(NoAuth)
    else if target.pubkey == workspace.ownerPubKey then Failure(TargetIsOwner)
    else if !hasAccess(caller, target.orgUuid, DeleteUser) then Failure(LacksPermission)
    else Success(st.(members := st.members - {target}))
  }

  /** Adding the same member twice: the second request is rejected as a duplicate. */
  lemma AddTwiceRejected(st: Store, hasAccess: Access, caller: string, target: Membership)
    requires CreateWorkspaceUser(st, hasAccess, caller, target).Success?
    ensures var added := CreateWorkspaceUser(st, hasAccess, caller, target).value;
      CreateWorkspaceUser(added, hasAccess, caller, target) == Failure(AlreadyMember)
  {
  }

  /** Removing a member that was just added restores the store it was added to. */
  lemma AddThenDeleteRestores(st: Store, hasAccess: Access, adder: string, remover: string, target: Membership)
    requires CreateWorkspaceUser(st, hasAccess, adder, target).Success?
    requires remover != "" && hasAccess(remover, target.orgUuid, DeleteUser)
    ensures var added := CreateWorkspaceUser(st, hasAccess, adder, target).value;
      DeleteWorkspaceUser(added, hasAccess, remover, target) == Success(st)
  {
    var added := CreateWorkspaceUser(st, hasAccess, adder, target).value;
    assert added.members - {target} == st.members;
  }

  /** Neither handler ever makes or unmakes the owner's membership, whoever asks. */
  lemma OwnerMembershipUntouched(st: Store, hasAccess: Access, caller: string, target: Membership)
    requires target.pubkey == GetWorkspaceByUuid(st, target.orgUuid).ownerPubKey
    ensures CreateWorkspaceUser(st, hasAccess, caller, target).Failure?
    ensures DeleteWorkspaceUser(st, hasAccess, caller, target).Failure?
  {
  }

  /** Unlike adding, removing has no guard against the caller naming themself: a member
      holding DELETE USER can remove their own membership. */
  lemma SelfRemovalAllowed(st: Store, hasAccess: Access, caller: string, uuid: string)
    requires caller != "" && caller != GetWorkspaceByUuid(st, uuid).ownerPubKey
    requires hasAccess(caller, uuid, DeleteUser)
    ensures DeleteWorkspaceUser(st, hasAccess, caller, Membership(caller, uuid)).Success?
    ensures CreateWorkspaceUser(st, hasAccess, caller, Membership(caller, uuid)) == Failure(TargetIsCaller)
  {
  }

  /** The status and the store after `DeleteWorkspace`; a failure after the first write
      leaves that write in place. */
  datatype DeleteReply = DeleteReply(status: Status, store: Store)

  /** Membership rows of every workspace other than `uuid`. */
  function MembersOutside(members: set<Membership>, uuid: string): set<Membership> {
    set m | m in members && m.orgUuid != uuid
  }

  /** `DeleteWorkspace`: only the owner may delete. Then `UpdateWorkspaceForDeletion`
      (clear the profile), `DeleteAllUsersFromWorkspace` and the soft delete run as three
      separate writes; the first two may fail, given by `clearFails` and `removeFails`. */
  function DeleteWorkspace(st: Store, caller: string, uuid: string, clearFails: bool, removeFails: bool)
    : (r: DeleteReply)
    ensures caller == "" || caller != GetWorkspaceByUuid(st, uuid).ownerPubKey ==>
      r == DeleteReply(Unauthorized, st)
    ensures r.status == OK <==>
      caller != "" && uuid in st.workspaces && caller == st.workspaces[uuid].ownerPubKey
      && !clearFails && !removeFails
    ensures r.status == OK ==>
      && uuid in r.store.workspaces
      && r.store.workspaces[uuid] == st.workspaces[uuid].(cleared := true, deleted := true)
      && (forall u :: u in st.workspaces && u != uuid ==>
            u in r.store.workspaces && r.store.workspaces[u] == st.workspaces[u])
      && r.store.workspaces.Keys == st.workspaces.Keys
      && (forall m :: m in r.store.members <==> m in st.members && m.orgUuid != uuid)
      && r.store.people == st.people
    ensures clearFails ==> r.store == st
    // a failed write after the owner check answers 500; a failed member removal keeps the
    // cleared profile
    ensures caller != "" && caller == GetWorkspaceByUuid(st, uuid).ownerPubKey && clearFails ==>
      r == DeleteReply(InternalServerError, st)
    ensures caller != "" && caller == GetWorkspaceByUuid(st, uuid).ownerPubKey && !clearFails && removeFails ==>
      r == DeleteReply(InternalServerError,
                       st.(workspaces := st.workspaces[uuid := GetWorkspaceByUuid(st, uuid).(cleared := true)]))
    ensures r.status == InternalServerError && !clearFails ==>
      && r.store.members == st.members
      && r.store.workspaces == st.workspaces[uuid := st.workspaces[uuid].(cleared := true)]
  {
    if caller == "" then DeleteReply(Unauthorized, st)
    else
      var workspace := GetWorkspaceByUuid(st, uuid);
      if caller != workspace.ownerPubKey then DeleteReply(Unauthorized, st)
      else if clearFails then DeleteReply(InternalServerError, st)
      else
        var cleared := st.(workspaces := st.workspaces[uuid := workspace.(cleared := true)]);
        if removeFails then DeleteReply(InternalServerError, cleared)
        else
          var removed := cleared.(members := MembersOutside(cleared.members, uuid));
          DeleteReply(OK, removed.(workspaces := removed.workspaces[uuid := workspace.(cleared := true, deleted := true)]))
  }

  /** A deleted workspace is soft-deleted: its record stays, with the same owner, flagged
      deleted, and no membership row of it is left. */
  lemma DeletedWorkspaceKeepsOwner(st: Store, caller: string, uuid: string)
    requires DeleteWorkspace(st, caller, uuid, false, false).status == OK
    ensures var after := DeleteWorkspace(st, caller, uuid, false, false).store;
      GetWorkspaceByUuid(after, uuid).ownerPubKey == caller
      && GetWorkspaceByUuid(after, uuid).deleted
      && (forall m :: m in after.members ==> m.orgUuid != uuid)
  {
  }
}
